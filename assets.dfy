/**
 * The borefield asset catalogue (`getAssetValuation` in
 * src/utils/dataProcessor.js): three literal records, returned sorted by
 * network value, largest first.
 */
module Assets {
  import opened Collections

  datatype AssetRecord = AssetRecord(
    id: string,
    name: string,
    assetType: string,
    capacity: real,          // W
    utilization: real,       // percent of capacity
    efficiency: real,        // average COP
    annualSavings: real,     // dollars per year
    networkValue: real,      // dollars per year, with the network-effect multiplier
    paybackPeriod: real,     // years
    installationCost: real,  // dollars
    maintenanceCost: real,   // dollars per year
    groundTemp: real)        // degrees Fahrenheit

  const HeatExchanger: string := "Geothermal Heat Exchanger"

  function Borefield1(): AssetRecord
  {
    AssetRecord("borefield_1", "Borefield 1", HeatExchanger,
                500000.0, 75.0, 4.8, 180000.0, 216000.0, 8.3, 1500000.0, 25000.0, 54.0)
  }

  function Borefield2(): AssetRecord
  {
    AssetRecord("borefield_2", "Borefield 2", HeatExchanger,
                750000.0, 82.0, 4.9, 275000.0, 330000.0, 7.8, 2100000.0, 35000.0, 55.0)
  }

  function Borefield3(): AssetRecord
  {
    AssetRecord("borefield_3", "Borefield 3", HeatExchanger,
                600000.0, 68.0, 4.7, 195000.0, 234000.0, 9.1, 1800000.0, 30000.0, 53.0)
  }

  /** The records in the order the literal array lists them. */
  function Catalogue(): seq<AssetRecord>
  {
    [Borefield1(), Borefield2(), Borefield3()]
  }

  function NetworkValue(a: AssetRecord): real
  {
    a.networkValue
  }

  /** `borefields.sort((a, b) => b.networkValue - a.networkValue)`. */
  function GetAssetValuation(): (r: seq<AssetRecord>)
    ensures multiset(r) == multiset(Catalogue())
    ensures NonIncreasing(r, NetworkValue)
  {
    SortByKey(Catalogue(), NetworkValue)
  }

  /** The sorted catalogue is borefield 2 ($330k), borefield 3 ($234k), borefield 1 ($216k). */
  lemma AssetValuationOrder()
    ensures GetAssetValuation() == [Borefield2(), Borefield3(), Borefield1()]
  {
    SortThree(Borefield1(), Borefield2(), Borefield3(), NetworkValue);
  }

  /** Every valued asset is a geothermal heat exchanger. */
  lemma CatalogueIsHeatExchangers()
    ensures forall a :: a in GetAssetValuation() ==> a.assetType == HeatExchanger
  {
    forall a | a in GetAssetValuation() ensures a.assetType == HeatExchanger {
      assert a in multiset(GetAssetValuation());
    }
  }

  /** Every record's network value is its annual savings times the network-effect multiplier 1.2. */
  lemma NetworkEffectMultiplier(a: AssetRecord)
    requires a in GetAssetValuation()
    ensures a.networkValue == 1.2 * a.annualSavings
  {
    assert a in multiset(GetAssetValuation());
  }
}
