/**
 * The network diagram (src/components/NetworkVisualization.js): the fixed
 * ring of 40 nodes in flow order, each node's figures for the current hour,
 * its colour and size, and the ring of connections between neighbours.
 */
module NetworkView {
  import opened Common
  import opened Text
  import opened Hourly
  import opened Borefields

  datatype NodeType = BorefieldNode | BuildingNode | PumpNode

  datatype TopologyNode = TopologyNode(id: string, nodeType: NodeType, name: string, shortName: string)

  /** A residence `b_i` (i from 6): `Res i-5`, short name `Ri-5`. */
  function Residential(i: nat): (node: TopologyNode)
    requires i >= 6
    ensures node.id == BuildingId(i) && node.nodeType == BuildingNode
  {
    TopologyNode(BuildingId(i), BuildingNode, "Res " + NatToString(i - 5), "R" + NatToString(i - 5))
  }

  /** The eight nodes listed literally: borefield 1, b_1..b_3, borefield 2, the pump, b_4, b_5. */
  function Head(): seq<TopologyNode>
  {
    [ TopologyNode("borefield_1", BorefieldNode, "Borefield 1", "BF1"),
      TopologyNode("b_1", BuildingNode, "Fire Dept", "Fire Dept"),
      TopologyNode("b_2", BuildingNode, "Gulf", "Gulf"),
      TopologyNode("b_3", BuildingNode, "Corner Cabinet", "Corner\nCabinet"),
      TopologyNode("borefield_2", BorefieldNode, "Borefield 2", "BF2"),
      TopologyNode("pump", PumpNode, "Main Pump", "Pump"),
      TopologyNode("b_4", BuildingNode, "Public School", "Public\nSchool"),
      TopologyNode("b_5", BuildingNode, "Housing Dept", "Housing\nDept") ]
  }

  function Borefield3Node(): TopologyNode
  {
    TopologyNode("borefield_3", BorefieldNode, "Borefield 3", "BF3")
  }

  /** Residences `b_first` .. `b_{first+count-1}`. */
  function Residences(first: nat, count: nat): (r: seq<TopologyNode>)
    requires first >= 6
    ensures |r| == count && forall k :: 0 <= k < count ==> r[k] == Residential(first + k)
  {
    seq(count, k requires 0 <= k < count => Residential(first + k))
  }

  /** The topology in flow order (specification of `BuildTopology`). */
  function FlowTopology(): (t: seq<TopologyNode>)
    ensures |t| == 40
  {
    Head() + Residences(6, 10) + [Borefield3Node()] + Residences(16, 21)
  }

  /** The literal head, then two `for` loops pushing residences around borefield 3. */
  method BuildTopology() returns (topology: seq<TopologyNode>)
    ensures topology == FlowTopology()
  {
    topology := Head();
    ghost var prefix := topology;
    for i := 6 to 16
      invariant topology == prefix + Residences(6, i - 6)
    {
      ResidencesExtend(6, i - 6);
      topology := topology + [Residential(i)];
    }
    topology := topology + [Borefield3Node()];
    prefix := topology;
    for i := 16 to 37
      invariant topology == prefix + Residences(16, i - 16)
    {
      ResidencesExtend(16, i - 16);
      topology := topology + [Residential(i)];
    }
  }

  lemma ResidencesExtend(first: nat, count: nat)
    requires first >= 6
    ensures Residences(first, count) + [Residential(first + count)] == Residences(first, count + 1)
  {
  }

  /** Where building `b_n` sits in the ring. */
  function Position(n: nat): (p: nat)
    requires 1 <= n <= 36
    ensures p < 40
  {
    if n <= 3 then n else if n <= 15 then n + 2 else n + 3
  }

  /** Building `b_n` is at `Position(n)`; residences b_6..b_36 are named `Res n-5` and `Rn-5`. */
  lemma TopologyBuilding(n: nat)
    requires 1 <= n <= 36
    ensures FlowTopology()[Position(n)].id == BuildingId(n)
    ensures FlowTopology()[Position(n)].nodeType == BuildingNode
    ensures n >= 6 ==> FlowTopology()[Position(n)].name == "Res " + NatToString(n - 5)
    ensures n >= 6 ==> FlowTopology()[Position(n)].shortName == "R" + NatToString(n - 5)
  {
    LowIds();
    var t := FlowTopology();
    if 6 <= n <= 15 {
      assert t[Position(n)] == Residences(6, 10)[n - 6];
    } else if n >= 16 {
      assert t[Position(n)] == Residences(16, 21)[n - 16];
    }
  }

  /** The non-building nodes: borefield 1 at 0, borefield 2 at 4, the pump at 5, borefield 3 at 18. */
  predicate IsFixedPosition(i: nat)
  {
    i == 0 || i == 4 || i == 5 || i == 18
  }

  /** Every other position holds a building, and each position's building has a number in 1..36. */
  lemma TopologyPositions(i: nat)
    requires i < 40
    ensures IsFixedPosition(i) <==> FlowTopology()[i].nodeType != BuildingNode
    ensures !IsFixedPosition(i) ==> exists n :: 1 <= n <= 36 && Position(n) == i
  {
    var t := FlowTopology();
    if 8 <= i < 18 {
      assert t[i] == Residences(6, 10)[i - 8];
      assert Position(i - 2) == i;
    } else if 19 <= i {
      assert t[i] == Residences(16, 21)[i - 19];
      assert Position(i - 3) == i;
    } else if i in {1, 2, 3} {
      assert Position(i) == i;
    } else if i in {6, 7} {
      assert Position(i - 2) == i;
    }
  }

  /** No two nodes share an id, so `Object.values(nodePositions)` lists the ring in flow order. */
  lemma TopologyIdsDistinct(i: nat, j: nat)
    requires i < j < 40
    ensures FlowTopology()[i].id != FlowTopology()[j].id
  {
    TopologyPositions(i);
    TopologyPositions(j);
    if IsFixedPosition(i) && IsFixedPosition(j) {
      FixedIds();
    } else if !IsFixedPosition(i) && !IsFixedPosition(j) {
      var m :| 1 <= m <= 36 && Position(m) == i;
      var n :| 1 <= n <= 36 && Position(n) == j;
      TopologyBuilding(m);
      TopologyBuilding(n);
      if BuildingId(m) == BuildingId(n) {
        BuildingIdInjective(m, n);
      }
    } else {
      var k := if IsFixedPosition(i) then j else i;
      var n :| 1 <= n <= 36 && Position(n) == k;
      TopologyBuilding(n);
      FixedIds();
      assert BuildingId(n)[1] == '_';
    }
  }

  /** The ids at the four non-building positions. */
  lemma FixedIds()
    ensures FlowTopology()[0].id == "borefield_1" && FlowTopology()[4].id == "borefield_2"
    ensures FlowTopology()[5].id == "pump" && FlowTopology()[18].id == "borefield_3"
  {
    var t := FlowTopology();
    assert t[18] == Borefield3Node();
  }

  // ---------------------------------------------------------------- node figures

  datatype EnhancedNode = EnhancedNode(
    node: TopologyNode,
    temperature: real,
    load: real,
    geoEfficiency: real,
    airEfficiency: real,
    energySavings: real,
    efficiencyGain: real)

  /**
   * A building with data for the hour gets its figures (`|load || 0|`,
   * inlet temperature `|| 50`, the rest `|| 0`); every other node gets the
   * borefield constants (54 °F, 5000, COP 5) or, failing that, the pump
   * constants (59 °F, 1000, 0) — which includes a building without data.
   */
  function EnhanceNode(node: TopologyNode, buildings: seq<BuildingSnapshot>): (e: EnhancedNode)
    ensures e.node == node && e.load >= 0.0
    ensures node.nodeType == BuildingNode && LookupBuilding(buildings, node.id).Some? ==>
              var b := LookupBuilding(buildings, node.id).value;
              && e.load == Abs(OrZero(b.load))
              && e.temperature == OrElse(b.inletTemp.fahrenheit, 50.0)
              && e.geoEfficiency == OrZero(b.geo.cop) && e.airEfficiency == OrZero(b.air.cop)
              && e.energySavings == OrZero(b.efficiency.energySavings)
              && e.efficiencyGain == OrZero(b.efficiency.efficiencyGain)
    ensures node.nodeType == BorefieldNode ==>
              e.temperature == 54.0 && e.load == 5000.0 && e.geoEfficiency == 5.0
              && e.airEfficiency == 0.0 && e.energySavings == 0.0 && e.efficiencyGain == 0.0
    ensures node.nodeType != BorefieldNode && !(node.nodeType == BuildingNode && LookupBuilding(buildings, node.id).Some?) ==>
              e.temperature == 59.0 && e.load == 1000.0 && e.geoEfficiency == 0.0
              && e.airEfficiency == 0.0 && e.energySavings == 0.0 && e.efficiencyGain == 0.0
  {
    match LookupBuilding(buildings, node.id)
    case Some(b) =>
      if node.nodeType == BuildingNode then
        EnhancedNode(node, OrElse(b.inletTemp.fahrenheit, 50.0), Abs(OrZero(b.load)),
                     OrZero(b.geo.cop), OrZero(b.air.cop),
                     OrZero(b.efficiency.energySavings), OrZero(b.efficiency.efficiencyGain))
      else Fallback(node)
    case None => Fallback(node)
  }

  function Fallback(node: TopologyNode): EnhancedNode
  {
    if node.nodeType == BorefieldNode then EnhancedNode(node, 54.0, 5000.0, 5.0, 0.0, 0.0, 0.0)
    else EnhancedNode(node, 59.0, 1000.0, 0.0, 0.0, 0.0, 0.0)
  }

  /** The diagram's nodes for the hour's buildings; nothing at all without them (`if (!data) return`). */
  function EnhancedNodes(data: Option<seq<BuildingSnapshot>>): (nodes: seq<EnhancedNode>)
    ensures data.None? ==> nodes == []
    ensures data.Some? ==> |nodes| == 40
    ensures data.Some? ==> forall i :: 0 <= i < 40 ==> nodes[i] == EnhanceNode(FlowTopology()[i], data.value)
  {
    match data
    case None => []
    case Some(buildings) =>
      var t := FlowTopology();
      seq(|t|, i requires 0 <= i < |t| => EnhanceNode(t[i], buildings))
  }

  datatype Color = Green | Yellow | Red | Blue | Gray

  /**
   * Borefields green, the pump yellow; a building red when heating, blue
   * otherwise, and gray when the hour has no data or no load for it.
   */
  function GetNodeColor(node: TopologyNode, buildings: seq<BuildingSnapshot>): (c: Color)
    ensures node.nodeType == BorefieldNode <==> c == Green
    ensures node.nodeType == PumpNode <==> c == Yellow
    ensures c == Red <==> node.nodeType == BuildingNode && LookupBuilding(buildings, node.id).Some?
                          && LookupBuilding(buildings, node.id).value.load.Some?
                          && LookupBuilding(buildings, node.id).value.load.value < 0.0
    ensures c == Blue <==> node.nodeType == BuildingNode && LookupBuilding(buildings, node.id).Some?
                           && LookupBuilding(buildings, node.id).value.load.Some?
                           && LookupBuilding(buildings, node.id).value.load.value >= 0.0
    ensures c == Gray <==> node.nodeType == BuildingNode
                           && (LookupBuilding(buildings, node.id).None? || LookupBuilding(buildings, node.id).value.load.None?)
  {
    match node.nodeType
    case BorefieldNode => Green
    case PumpNode => Yellow
    case BuildingNode =>
      match LookupBuilding(buildings, node.id)
      case Some(b) =>
        (match b.load
         case Some(load) => if load < 0.0 then Red else Blue
         case None => Gray)
      case None => Gray
  }

  /** Borefields 25, the pump 20, a building `load / 1000 * 2` clamped to [8, 20]. */
  function GetNodeSize(e: EnhancedNode): (size: real)
    ensures e.node.nodeType == BorefieldNode ==> size == 25.0
    ensures e.node.nodeType == PumpNode ==> size == 20.0
    ensures e.node.nodeType == BuildingNode ==> 8.0 <= size <= 20.0
    ensures e.node.nodeType == BuildingNode && 8.0 <= e.load / 500.0 <= 20.0 ==> size == e.load / 500.0
    ensures e.node.nodeType == BuildingNode && e.load / 500.0 >= 20.0 ==> size == 20.0
    ensures e.node.nodeType == BuildingNode && e.load / 500.0 <= 8.0 ==> size == 8.0
  {
    match e.node.nodeType
    case BorefieldNode => 25.0
    case PumpNode => 20.0
    case BuildingNode => Max(8.0, Min(20.0, e.load / 1000.0 * 2.0))
  }

  // ---------------------------------------------------------------- ring

  datatype Connection = Connection(source: EnhancedNode, target: EnhancedNode)

  /** The ring's successor `(i + 1) % n`: the last node links back to the first. */
  function Next(i: nat, n: nat): (j: nat)
    requires i < n
    ensures j < n && j == (i + 1) % n
  {
    if i + 1 == n then 0 else i + 1
  }

  /** The ring's predecessor. */
  function Prev(j: nat, n: nat): (i: nat)
    requires j < n
    ensures i < n
  {
    if j == 0 then n - 1 else j - 1
  }

  /** `for` each node, push the edge to its successor in the ring. */
  method Connect(nodes: seq<EnhancedNode>) returns (connections: seq<Connection>)
    ensures |connections| == |nodes|
    ensures forall i :: 0 <= i < |nodes| ==> connections[i] == Connection(nodes[i], nodes[Next(i, |nodes|)])
  {
    connections := [];
    for i := 0 to |nodes|
      invariant |connections| == i
      invariant forall k :: 0 <= k < i ==> connections[k] == Connection(nodes[k], nodes[Next(k, |nodes|)])
    {
      connections := connections + [Connection(nodes[i], nodes[(i + 1) % |nodes|])];
    }
  }

  /** Every position is the target of exactly one edge: the one from its predecessor. */
  lemma RingTargetsOnce(n: nat, j: nat)
    requires j < n
    ensures Next(Prev(j, n), n) == j
    ensures forall i :: 0 <= i < n && Next(i, n) == j ==> i == Prev(j, n)
  {
  }
}
