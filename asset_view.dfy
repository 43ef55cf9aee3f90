/**
 * The asset valuation panel (src/components/AssetValuation.js): the
 * filter -> sort -> top-10 pipeline over the asset list, the summary
 * reductions, the per-type count and the COP performance bar.
 */
module AssetView {
  import opened Common
  import opened Text
  import opened Collections
  import opened Assets

  datatype Summary = Summary(
    totalNetworkValue: real,
    avgEfficiency: Option<real>,
    avgUtilization: Option<real>,
    totalAnnualSavings: real)

  /** One entry of the `assetTypes` object: a type and how many filtered assets have it. */
  datatype TypeCount = TypeCount(assetType: string, count: nat)

  /** What the component shows: the loading placeholder, or the computed panel. */
  datatype AssetPanel =
    | Loading
    | Panel(filtered: seq<AssetRecord>, topAssets: seq<AssetRecord>, summary: Summary, assetTypes: seq<TypeCount>)

  // ---------------------------------------------------------------- filter

  /** The filter test: `'all'`, or the lower-cased type contains the lower-cased filter. */
  predicate Keeps(filterType: string, a: AssetRecord)
  {
    filterType == "all" || Contains(ToLower(a.assetType), ToLower(filterType))
  }

  function KeepFn(filterType: string): AssetRecord -> bool
  {
    a => Keeps(filterType, a)
  }

  function FilterAssets(assets: seq<AssetRecord>, filterType: string): (r: seq<AssetRecord>)
    ensures |r| <= |assets|
    ensures forall a :: a in r <==> a in assets && Keeps(filterType, a)
    ensures forall a :: multiset(r)[a] == if Keeps(filterType, a) then multiset(assets)[a] else 0
  {
    FilterCountsAll(assets, KeepFn(filterType));
    Filter(assets, KeepFn(filterType))
  }

  /**
   * The filter keeps the list's order: it works part by part, and a single
   * asset is kept or dropped whole.
   */
  lemma FilterAssetsOrder(assets: seq<AssetRecord>, more: seq<AssetRecord>, a: AssetRecord, filterType: string)
    ensures FilterAssets(assets + more, filterType) == FilterAssets(assets, filterType) + FilterAssets(more, filterType)
    ensures FilterAssets([a], filterType) == if Keeps(filterType, a) then [a] else []
  {
    FilterAppend(assets, more, KeepFn(filterType));
    FilterSingleton(a, KeepFn(filterType));
  }

  /** `'all'` keeps every asset, in order. */
  lemma FilterAllKeepsEverything(assets: seq<AssetRecord>)
    ensures FilterAssets(assets, "all") == assets
  {
    FilterKeepsAll(assets, KeepFn("all"));
  }

  /** Any other filter keeps exactly the assets whose lower-cased type has the lower-cased filter at some position. */
  lemma FilterBySubstring(assets: seq<AssetRecord>, filterType: string, a: AssetRecord)
    requires filterType != "all"
    ensures a in FilterAssets(assets, filterType) <==>
              a in assets && exists i :: OccursAt(ToLower(a.assetType), ToLower(filterType), i)
  {
    ContainsIffOccurs(ToLower(a.assetType), ToLower(filterType));
  }

  /** The "Geothermal Assets" option keeps the whole borefield catalogue. */
  lemma GeothermalFilterKeepsCatalogue()
    ensures FilterAssets(GetAssetValuation(), "geothermal") == GetAssetValuation()
  {
    var v := GetAssetValuation();
    CatalogueIsHeatExchangers();
    GeothermalMatchesHeatExchanger();
    forall a | a in v ensures KeepFn("geothermal")(a) {
      assert a.assetType == HeatExchanger;
    }
    FilterKeepsAll(v, KeepFn("geothermal"));
  }

  /** `'geothermal heat exchanger'.includes('geothermal')`. */
  lemma GeothermalMatchesHeatExchanger()
    ensures Contains(ToLower(HeatExchanger), ToLower("geothermal"))
  {
    var lowered := ToLower(HeatExchanger);
    assert lowered[..10] == "geothermal";
    assert ToLower("geothermal") == "geothermal";
  }

  // ---------------------------------------------------------------- sort

  /**
   * The sort key a `sortBy` choice stands for, larger first; payback is
   * ascending, so its key is negated; any other choice compares as 0.
   */
  function SortKey(sortBy: string): AssetRecord -> real
  {
    if sortBy == "networkValue" then NetworkValue
    else if sortBy == "annualSavings" then AnnualSavings
    else if sortBy == "efficiency" then EfficiencyOf
    else if sortBy == "utilization" then UtilizationOf
    else if sortBy == "paybackPeriod" then (a: AssetRecord) => -a.paybackPeriod
    else (a: AssetRecord) => 0.0
  }

  predicate KnownSortKey(sortBy: string)
  {
    sortBy in ["networkValue", "annualSavings", "efficiency", "utilization", "paybackPeriod"]
  }

  function SortAssets(assets: seq<AssetRecord>, sortBy: string): (r: seq<AssetRecord>)
    ensures |r| == |assets| && multiset(r) == multiset(assets)
    ensures NonIncreasing(r, SortKey(sortBy))
  {
    SortByKey(assets, SortKey(sortBy))
  }

  /** What each choice of `sortBy` guarantees about two positions of the sorted list. */
  lemma SortAssetsOrder(assets: seq<AssetRecord>, sortBy: string, i: nat, j: nat)
    requires i < j < |SortAssets(assets, sortBy)|
    ensures var r := SortAssets(assets, sortBy);
            && (sortBy == "networkValue" ==> r[i].networkValue >= r[j].networkValue)
            && (sortBy == "annualSavings" ==> r[i].annualSavings >= r[j].annualSavings)
            && (sortBy == "efficiency" ==> r[i].efficiency >= r[j].efficiency)
            && (sortBy == "utilization" ==> r[i].utilization >= r[j].utilization)
            && (sortBy == "paybackPeriod" ==> r[i].paybackPeriod <= r[j].paybackPeriod)
  {
    var r := SortAssets(assets, sortBy);
    assert SortKey(sortBy)(r[i]) >= SortKey(sortBy)(r[j]);
  }

  /** An unknown `sortBy` makes every comparison 0, and the stable sort keeps the filtered order. */
  lemma SortUnknownKeepsOrder(assets: seq<AssetRecord>, sortBy: string)
    requires !KnownSortKey(sortBy)
    ensures SortAssets(assets, sortBy) == assets
  {
    var key := SortKey(sortBy);
    assert forall a :: key(a) == 0.0;
    SortByKeyAllTies(assets, key);
  }

  /** Assets that tie on the chosen key keep their filtered order, as `Array.prototype.sort` is stable. */
  lemma SortAssetsStable(assets: seq<AssetRecord>, sortBy: string, k: real)
    ensures Filter(SortAssets(assets, sortBy), KeyIs(SortKey(sortBy), k)) == Filter(assets, KeyIs(SortKey(sortBy), k))
  {
    SortByKeyStable(assets, SortKey(sortBy), k);
  }

  /** `filteredAssets.slice(0, 10)`. */
  function TopAssets(sorted: seq<AssetRecord>): (r: seq<AssetRecord>)
    ensures |r| == if |sorted| < 10 then |sorted| else 10
    ensures r <= sorted
  {
    if |sorted| < 10 then sorted else sorted[..10]
  }

  // ---------------------------------------------------------------- summary

  function AnnualSavings(a: AssetRecord): real { a.annualSavings }
  function EfficiencyOf(a: AssetRecord): real { a.efficiency }
  function UtilizationOf(a: AssetRecord): real { a.utilization }

  /** The four summary reductions; the averages divide by the length and are undefined for an empty list. */
  function Summarize(filtered: seq<AssetRecord>): (s: Summary)
    ensures s.avgEfficiency.Some? <==> |filtered| > 0
    ensures s.avgUtilization.Some? <==> |filtered| > 0
    ensures s.avgEfficiency.Some? ==> s.avgEfficiency.value * |filtered| as real == SumOf(filtered, EfficiencyOf)
    ensures s.avgUtilization.Some? ==> s.avgUtilization.value * |filtered| as real == SumOf(filtered, UtilizationOf)
  {
    Summary(
      SumOf(filtered, NetworkValue),
      Div(SumOf(filtered, EfficiencyOf), |filtered| as real),
      Div(SumOf(filtered, UtilizationOf), |filtered| as real),
      SumOf(filtered, AnnualSavings))
  }

  /** The summary does not depend on which sort was chosen. */
  lemma SummaryIgnoresSortOrder(filtered: seq<AssetRecord>, sortBy: string)
    ensures Summarize(SortAssets(filtered, sortBy)) == Summarize(filtered)
  {
    var r := SortAssets(filtered, sortBy);
    SumOfPermutation(r, filtered, NetworkValue);
    SumOfPermutation(r, filtered, EfficiencyOf);
    SumOfPermutation(r, filtered, UtilizationOf);
    SumOfPermutation(r, filtered, AnnualSavings);
  }

  /** The average efficiency lies between the smallest and the largest efficiency. */
  lemma AverageEfficiencyWithinBounds(filtered: seq<AssetRecord>, lo: real, hi: real)
    requires |filtered| > 0
    requires forall a :: a in filtered ==> lo <= a.efficiency <= hi
    ensures lo <= Summarize(filtered).avgEfficiency.value <= hi
  {
    forall a | a in filtered ensures lo <= EfficiencyOf(a) <= hi {
    }
    MeanWithinBounds(filtered, EfficiencyOf, Summarize(filtered).avgEfficiency.value, lo, hi);
  }

  // ---------------------------------------------------------------- type counts

  /** The position of `t`'s entry, if the object already has that key. */
  function KeyIndex(counts: seq<TypeCount>, t: string): (r: Option<nat>)
    ensures r.Some? ==> r.value < |counts| && counts[r.value].assetType == t
                        && forall k :: 0 <= k < r.value ==> counts[k].assetType != t
    ensures r.None? <==> forall k :: 0 <= k < |counts| ==> counts[k].assetType != t
    decreases |counts|
  {
    if counts == [] then None
    else if counts[0].assetType == t then Some(0)
    else
      match KeyIndex(counts[1..], t)
      case None => None
      case Some(j) => Some(j + 1)
  }

  /** `acc[t]`, with a missing key read as 0. */
  function Lookup(counts: seq<TypeCount>, t: string): nat
  {
    match KeyIndex(counts, t)
    case Some(j) => counts[j].count
    case None => 0
  }

  /** `acc[t] = (acc[t] || 0) + 1`: bump the existing entry, or add a new key at the end. */
  function Bump(counts: seq<TypeCount>, t: string): seq<TypeCount>
  {
    match KeyIndex(counts, t)
    case Some(j) => counts[j := TypeCount(t, counts[j].count + 1)]
    case None => counts + [TypeCount(t, 1)]
  }

  /** The `assetTypes` object after the `reduce` over `assets`, keys in insertion order. */
  function TypeCounts(assets: seq<AssetRecord>): seq<TypeCount>
    decreases |assets|
  {
    if assets == [] then [] else Bump(TypeCounts(assets[..|assets| - 1]), assets[|assets| - 1].assetType)
  }

  /** The sum of the counts. */
  function Total(counts: seq<TypeCount>): nat
    decreases |counts|
  {
    if counts == [] then 0 else counts[0].count + Total(counts[1..])
  }

  /** How many of `assets` have type `t`. */
  function CountOf(assets: seq<AssetRecord>, t: string): nat
    decreases |assets|
  {
    if assets == [] then 0
    else CountOf(assets[..|assets| - 1], t) + (if assets[|assets| - 1].assetType == t then 1 else 0)
  }

  predicate DistinctKeys(counts: seq<TypeCount>)
  {
    forall i, j :: 0 <= i < j < |counts| ==> counts[i].assetType != counts[j].assetType
  }

  /**
   * The counting `reduce`: for each asset, find its type's entry and bump it
   * in place, or add the key.
   */
  method CountAssetTypes(assets: seq<AssetRecord>) returns (counts: seq<TypeCount>)
    ensures counts == TypeCounts(assets)
  {
    counts := [];
    var i := 0;
    while i < |assets|
      invariant 0 <= i <= |assets|
      invariant counts == TypeCounts(assets[..i])
    {
      counts := BumpEntry(counts, assets[i].assetType);
      TypeCountsStep(assets, i);
      i := i + 1;
    }
    assert assets[..i] == assets;
  }

  /** One step of the `reduce`: find `t`'s entry and bump it, or add the key. */
  method BumpEntry(counts: seq<TypeCount>, t: string) returns (r: seq<TypeCount>)
    ensures r == Bump(counts, t)
  {
    var j := 0;
    while j < |counts| && counts[j].assetType != t
      invariant 0 <= j <= |counts|
      invariant forall k :: 0 <= k < j ==> counts[k].assetType != t
    {
      j := j + 1;
    }
    KeyIndexFound(counts, t, j);
    if j < |counts| {
      r := counts[j := TypeCount(t, counts[j].count + 1)];
    } else {
      r := counts + [TypeCount(t, 1)];
    }
  }

  /** The scan's stopping point is the key's position. */
  lemma KeyIndexFound(counts: seq<TypeCount>, t: string, j: nat)
    requires j <= |counts| && forall k :: 0 <= k < j ==> counts[k].assetType != t
    requires j < |counts| ==> counts[j].assetType == t
    ensures KeyIndex(counts, t) == if j < |counts| then Some(j) else None
  {
  }

  /** Counting one more asset bumps its type. */
  lemma TypeCountsStep(assets: seq<AssetRecord>, i: nat)
    requires i < |assets|
    ensures TypeCounts(assets[..i + 1]) == Bump(TypeCounts(assets[..i]), assets[i].assetType)
  {
    assert assets[..i + 1][..i] == assets[..i];
  }

  lemma {:induction false} TotalUpdate(counts: seq<TypeCount>, j: nat, x: TypeCount)
    requires j < |counts|
    ensures Total(counts[j := x]) + counts[j].count == Total(counts) + x.count
    decreases |counts|
  {
    if j > 0 {
      assert counts[j := x][1..] == counts[1..][j - 1 := x];
      TotalUpdate(counts[1..], j - 1, x);
    }
  }

  lemma {:induction false} TotalAppend(counts: seq<TypeCount>, x: TypeCount)
    ensures Total(counts + [x]) == Total(counts) + x.count
    decreases |counts|
  {
    if counts != [] {
      assert (counts + [x])[1..] == counts[1..] + [x];
      TotalAppend(counts[1..], x);
    }
  }

  /** The counts add up to the number of assets counted. */
  lemma {:induction false} TypeCountsTotal(assets: seq<AssetRecord>)
    ensures Total(TypeCounts(assets)) == |assets|
    decreases |assets|
  {
    if assets != [] {
      var init := TypeCounts(assets[..|assets| - 1]);
      var t := assets[|assets| - 1].assetType;
      TypeCountsTotal(assets[..|assets| - 1]);
      match KeyIndex(init, t)
      case Some(j) => TotalUpdate(init, j, TypeCount(t, init[j].count + 1));
      case None => TotalAppend(init, TypeCount(t, 1));
    }
  }

  /** Every key appears once: `Bump` never adds a key that is already there. */
  lemma {:induction false} TypeCountsDistinctKeys(assets: seq<AssetRecord>)
    ensures DistinctKeys(TypeCounts(assets))
    decreases |assets|
  {
    if assets != [] {
      TypeCountsDistinctKeys(assets[..|assets| - 1]);
    }
  }

  /** Only the bumped key's count changes, and it grows by one. */
  lemma BumpLookup(counts: seq<TypeCount>, t: string, u: string)
    ensures Lookup(Bump(counts, t), u) == Lookup(counts, u) + (if u == t then 1 else 0)
  {
    var b := Bump(counts, t);
    assert |b| >= |counts|;
    assert forall k :: 0 <= k < |counts| ==> b[k].assetType == counts[k].assetType;
    match KeyIndex(counts, u)
    case Some(j) =>
      assert KeyIndex(b, u) == Some(j);
    case None =>
      if u == t {
        assert b[|counts|].assetType == u;
        assert KeyIndex(b, u).value == |counts|;
      } else {
        assert KeyIndex(b, u) == None;
      }
  }

  /** Each type's entry holds the number of assets of that type (0 for a type never seen). */
  lemma {:induction false} TypeCountsLookup(assets: seq<AssetRecord>, t: string)
    ensures Lookup(TypeCounts(assets), t) == CountOf(assets, t)
    decreases |assets|
  {
    if assets != [] {
      TypeCountsLookup(assets[..|assets| - 1], t);
      BumpLookup(TypeCounts(assets[..|assets| - 1]), assets[|assets| - 1].assetType, t);
    }
  }

  // ---------------------------------------------------------------- COP bar

  /** The COP performance percent: the efficiency against a COP of 5. */
  function CopPercent(efficiency: real): (p: real)
    ensures p * 5.0 == efficiency * 100.0
  {
    efficiency / 5.0 * 100.0
  }

  /** The bar width: the percent, capped at 100. */
  function BarWidth(efficiency: real): (w: real)
    ensures w <= 100.0
    ensures efficiency <= 5.0 ==> w == CopPercent(efficiency)
    ensures efficiency > 5.0 ==> w == 100.0
  {
    Min(100.0, CopPercent(efficiency))
  }

  // ---------------------------------------------------------------- panel

  /** The component: a placeholder for missing or empty data, otherwise the whole panel. */
  function AssetValuationView(assetData: Option<seq<AssetRecord>>, sortBy: string, filterType: string): (v: AssetPanel)
    ensures v.Loading? <==> assetData.None? || assetData.value == []
    ensures v.Panel? ==> multiset(v.filtered) == multiset(FilterAssets(assetData.value, filterType))
    ensures v.Panel? ==> NonIncreasing(v.filtered, SortKey(sortBy))
    ensures v.Panel? ==> v.topAssets <= v.filtered && |v.topAssets| <= 10
    ensures v.Panel? ==> v.summary == Summarize(FilterAssets(assetData.value, filterType))
    ensures v.Panel? ==> Total(v.assetTypes) == |v.filtered| && DistinctKeys(v.assetTypes)
    ensures v.Panel? ==> v.filtered == SortAssets(FilterAssets(assetData.value, filterType), sortBy)
    ensures v.Panel? ==> v.topAssets == TopAssets(v.filtered)
    ensures v.Panel? ==> v.assetTypes == TypeCounts(v.filtered)
  {
    match assetData
    case None => Loading
    case Some(assets) =>
      if assets == [] then Loading
      else
        var unsorted := FilterAssets(assets, filterType);
        var filtered := SortAssets(unsorted, sortBy);
        SummaryIgnoresSortOrder(unsorted, sortBy);
        TypeCountsTotal(filtered);
        TypeCountsDistinctKeys(filtered);
        Panel(filtered, TopAssets(filtered), Summarize(filtered), TypeCounts(filtered))
  }
}
