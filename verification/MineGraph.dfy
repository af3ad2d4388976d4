/** The mine road network and its adjacency index with synthesized reverse edges. */
module MineGraph {
  import opened Options

  datatype RoadStatus = Open | Restricted | Closed

  datatype MineEdge = MineEdge(
    edgeId: string, fromNode: string, toNode: string, distance: real, gradient: real,
    maxWeight: real, status: RoadStatus, speedLimit: real, riskPenalty: real, lanes: int,
    bidirectional: bool, surface: string, segmentName: string)
  {
    predicate Valid() {
      distance > 0.0 && maxWeight > 0.0 && speedLimit > 0.0 && riskPenalty >= 0.0 && lanes >= 1
    }
  }

  /** The nodes and the edges by identifier; `order` is the insertion order of the edge dictionary. */
  datatype Network = Network(nodes: set<string>, order: seq<string>, edges: map<string, MineEdge>)
  {
    ghost predicate Valid() {
      && (forall id :: id in edges <==> id in order)
      && (forall i, j | 0 <= i < j < |order| :: order[i] != order[j])
      && (forall id | id in edges :: edges[id].Valid() && edges[id].edgeId == id)
    }
  }

  const REV := "_REV"

  function RemoveSuffix(id: string): string {
    if |id| >= 4 && id[|id| - 4..] == REV then id[..|id| - 4] else id
  }

  predicate IsPlain(id: string) { RemoveSuffix(id) == id }

  lemma RemoveSuffixOfReverse(id: string)
    ensures RemoveSuffix(id + REV) == id
  {
    assert (id + REV)[|id + REV| - 4..] == REV;
  }

  lemma ReverseIsNotPlain(id: string)
    ensures !IsPlain(id + REV)
  {
    RemoveSuffixOfReverse(id);
    assert |id + REV| == |id| + 4;
  }

  /** The edge driven the other way, under the given identifier. */
  function ReverseAs(e: MineEdge, id: string): MineEdge {
    e.(edgeId := id, fromNode := e.toNode, toNode := e.fromNode, gradient := -e.gradient, bidirectional := true)
  }

  function Reverse(e: MineEdge): MineEdge { ReverseAs(e, e.edgeId + REV) }

  // ---------------------------------------------------------------------------
  // The index and the lookup as functions of the network
  // ---------------------------------------------------------------------------

  /** What one edge adds to the list of a node. */
  function EntriesOf(e: MineEdge, node: string): seq<MineEdge> {
    (if e.fromNode == node then [e] else []) + (if e.bidirectional && e.toNode == node then [Reverse(e)] else [])
  }

  /** The list of a node after the first `count` edges have been indexed. */
  function ListOf(net: Network, node: string, count: nat): seq<MineEdge>
    requires count <= |net.order| && forall i | 0 <= i < count :: net.order[i] in net.edges
  {
    if count == 0 then []
    else ListOf(net, node, count - 1) + EntriesOf(net.edges[net.order[count - 1]], node)
  }

  function Lookup(net: Network, id: string): Option<MineEdge> {
    if id in net.edges then Some(net.edges[id])
    else if RemoveSuffix(id) in net.edges then Some(ReverseAs(net.edges[RemoveSuffix(id)], id))
    else None
  }

  lemma OrderIsKnown(net: Network)
    requires net.Valid()
    ensures forall i | 0 <= i < |net.order| :: net.order[i] in net.edges
  {
  }

  lemma ListsStartEmpty(net: Network)
    ensures forall node :: ListOf(net, node, 0) == []
  {
  }

  lemma ListsGrow(net: Network, i: nat)
    requires i < |net.order| && forall j | 0 <= j < |net.order| :: net.order[j] in net.edges
    ensures forall node :: ListOf(net, node, i + 1) == ListOf(net, node, i) + EntriesOf(net.edges[net.order[i]], node)
  {
  }

  /** Looking an edge up gives the stored one; under the name of its reverse the same road from the other end, two-way
      and with the opposite grade, unless an edge is stored under that name; anything else is unknown. */
  lemma LookupExactly(net: Network, id: string)
    ensures id in net.edges ==> Lookup(net, id) == Some(net.edges[id])
    ensures id in net.edges && id + "_REV" !in net.edges ==>
              var r, e := Lookup(net, id + "_REV"), net.edges[id];
              r.Some? && r.value == MineEdge(id + "_REV", e.toNode, e.fromNode, e.distance, 0.0 - e.gradient, e.maxWeight,
                                             e.status, e.speedLimit, e.riskPenalty, e.lanes, true, e.surface, e.segmentName)
    ensures Lookup(net, id).Some? ==> id in net.edges || exists base :: base in net.edges && id == base + "_REV"
  {
    RemoveSuffixOfReverse(id);
    if id !in net.edges && Lookup(net, id).Some? {
      assert id == RemoveSuffix(id) + "_REV";
    }
  }

  /** The index holds every node's full list. */
  ghost predicate IsIndexOf(net: Network, index: map<string, seq<MineEdge>>) {
    && net.Valid()
    && index.Keys == net.nodes
    && forall node | node in net.nodes :: index[node] == ListOf(net, node, |net.order|)
  }

  ghost predicate IsEntry(net: Network, node: string, e: MineEdge, id: string) {
    id in net.edges && e in EntriesOf(net.edges[id], node)
  }

  /** A node's list holds exactly the edges leaving it, forwards or backwards. */
  lemma {:induction false} ListMembers(net: Network, node: string, count: nat, e: MineEdge)
    requires net.Valid() && count <= |net.order|
    ensures e in ListOf(net, node, count) <==> exists i | 0 <= i < count :: IsEntry(net, node, e, net.order[i])
  {
    hide EntriesOf;
    if count > 0 {
      ListMembers(net, node, count - 1, e);
      var last := net.order[count - 1];
      assert last in net.edges;
      assert e in ListOf(net, node, count) <==> e in ListOf(net, node, count - 1) || e in EntriesOf(net.edges[last], node);
      assert e in EntriesOf(net.edges[last], node) <==> IsEntry(net, node, e, last);
    }
  }

  /** The whole index: every entry of every node's list is what looking up its identifier gives. */
  ghost predicate IndexAgrees(net: Network)
    requires net.Valid()
  {
    forall node, e | node in net.nodes && e in ListOf(net, node, |net.order|) :: Lookup(net, e.edgeId) == Some(e)
  }

  /** No edge of the network is stored under the name of another one's reverse,
      unless it is that reverse. */
  ghost predicate NoneShadowed(net: Network)
    requires net.Valid()
  {
    forall id | id in net.edges && net.edges[id].bidirectional && net.edges[id].toNode in net.nodes ::
      id + REV in net.edges ==> net.edges[id + REV] == Reverse(net.edges[id])
  }

  lemma EntryFrom(net: Network, node: string, e: MineEdge)
    requires net.Valid() && e in ListOf(net, node, |net.order|)
    ensures exists id | id in net.edges :: IsEntry(net, node, e, id)
    ensures e.fromNode == node && e.Valid()
  {
    ListMembers(net, node, |net.order|, e);
    var i :| 0 <= i < |net.order| && IsEntry(net, node, e, net.order[i]);
    assert IsEntry(net, node, e, net.order[i]);
  }

  lemma EntryTo(net: Network, node: string, e: MineEdge, id: string)
    requires net.Valid() && IsEntry(net, node, e, id)
    ensures e in ListOf(net, node, |net.order|)
  {
    assert id in net.order;
    var i :| 0 <= i < |net.order| && net.order[i] == id;
    assert IsEntry(net, node, e, net.order[i]);
    ListMembers(net, node, |net.order|, e);
  }

  /** Index and lookup agree if and only if no reverse name is shadowed. */
  lemma IndexAgreesExactly(net: Network)
    requires net.Valid()
    ensures IndexAgrees(net) <==> NoneShadowed(net)
  {
    if NoneShadowed(net) {
      forall node, e | node in net.nodes && e in ListOf(net, node, |net.order|) ensures Lookup(net, e.edgeId) == Some(e) {
        EntryFrom(net, node, e);
        var id :| id in net.edges && IsEntry(net, node, e, id);
        RemoveSuffixOfReverse(id);
      }
    }
    if IndexAgrees(net) {
      forall id | id in net.edges && net.edges[id].bidirectional && net.edges[id].toNode in net.nodes && id + REV in net.edges
        ensures net.edges[id + REV] == Reverse(net.edges[id])
      {
        var e := Reverse(net.edges[id]);
        assert IsEntry(net, e.fromNode, e, id);
        EntryTo(net, e.fromNode, e, id);
        assert Lookup(net, e.edgeId) == Some(e);
      }
    }
  }

  ghost predicate PlainIds(net: Network) {
    forall id | id in net.edges :: IsPlain(id)
  }

  /** With base identifiers that do not end in the reverse suffix they always agree. */
  lemma PlainIdsAgree(net: Network)
    requires net.Valid() && PlainIds(net)
    ensures IndexAgrees(net)
  {
    forall id | id in net.edges ensures id + REV !in net.edges {
      ReverseIsNotPlain(id);
    }
    IndexAgreesExactly(net);
  }

  /** Two edges named "A" and "A_REV": the reverse of the first cannot be looked up. */
  lemma ShadowedReverseDisagrees()
    ensures exists net: Network :: net.Valid() && !IndexAgrees(net)
  {
    var a := MineEdge("A", "P", "Q", 1.0, 2.0, 1.0, Open, 1.0, 0.0, 1, true, "", "");
    var b := MineEdge("A_REV", "P", "Q", 3.0, 0.0, 1.0, Open, 1.0, 0.0, 1, true, "", "");
    var net := Network({"P", "Q"}, ["A", "A_REV"], map["A" := a, "A_REV" := b]);
    assert "A" + REV == "A_REV";
    assert b.distance != Reverse(a).distance;
    assert net.Valid();
    assert !NoneShadowed(net) by {
      assert "A" in net.edges && net.edges["A"].bidirectional && net.edges["A"].toNode in net.nodes;
    }
    IndexAgreesExactly(net);
  }

  // ---------------------------------------------------------------------------
  // Changing the status of an edge
  // ---------------------------------------------------------------------------

  function WithStatus(e: MineEdge, status: RoadStatus, risk: Option<real>, speed: Option<real>): MineEdge {
    e.(status := status,
       riskPenalty := (match risk case None => e.riskPenalty case Some(r) => if r > 0.0 then r else 0.0),
       speedLimit := (match speed case None => e.speedLimit case Some(v) => if v > 1.0 then v else 1.0))
  }

  function Updated(net: Network, id: string, status: RoadStatus, risk: Option<real>, speed: Option<real>): Network {
    var base := RemoveSuffix(id);
    if base !in net.edges then net
    else net.(edges := net.edges[base := WithStatus(net.edges[base], status, risk, speed)])
  }

  lemma UpdatedIsValid(net: Network, id: string, status: RoadStatus, risk: Option<real>, speed: Option<real>)
    requires net.Valid()
    ensures Updated(net, id, status, risk, speed).Valid()
    ensures PlainIds(net) ==> PlainIds(Updated(net, id, status, risk, speed))
  {
  }

  /** x is the greater of the two. */
  predicate IsGreater(x: real, a: real, b: real) { x >= a && x >= b && (x == a || x == b) }

  /** The update puts the named base edge, and no other, on the new status; its risk is the given one but not negative,
      its speed limit the given one but at least 1, and all else about it stays. */
  lemma UpdateExactly(net: Network, id: string, status: RoadStatus, risk: Option<real>, speed: Option<real>)
    ensures var after, base := Updated(net, id, status, risk, speed), RemoveSuffix(id);
            && after.nodes == net.nodes && after.order == net.order && after.edges.Keys == net.edges.Keys
            && (forall k | k in net.edges && k != base :: after.edges[k] == net.edges[k])
            && (base in net.edges ==>
                  var was, now := net.edges[base], after.edges[base];
                  && now == was.(status := status, riskPenalty := now.riskPenalty, speedLimit := now.speedLimit)
                  && (if risk.Some? then IsGreater(now.riskPenalty, risk.value, 0.0)
                      else now.riskPenalty == was.riskPenalty)
                  && (if speed.Some? then IsGreater(now.speedLimit, speed.value, 1.0)
                      else now.speedLimit == was.speedLimit))
  {
    hide RemoveSuffix;
  }

  /** The edges of one network but for the named one are edges of the other. */
  ghost predicate SharesOthers(net: Network, other: Network, base: string) {
    forall k | k in net.edges && k != base :: k in other.edges && other.edges[k] == net.edges[k]
  }

  lemma EntryStays(net: Network, other: Network, base: string, node: string, e: MineEdge)
    requires net.Valid() && PlainIds(net) && other.Valid() && SharesOthers(net, other, base)
    requires RemoveSuffix(e.edgeId) != base && e in ListOf(net, node, |net.order|)
    ensures e in ListOf(other, node, |other.order|)
  {
    hide EntriesOf, ListOf, RemoveSuffix, Network.Valid, PlainIds;
    EntryFrom(net, node, e);
    var k :| k in net.edges && IsEntry(net, node, e, k);
    EntryHasBase(net, node, e, k);
    assert IsEntry(other, node, e, k);
    EntryTo(other, node, e, k);
  }

  /** An entry of the index that is not about the named edge is in the index before and after alike. */
  lemma OtherEntriesStay(
    net: Network, id: string, status: RoadStatus, risk: Option<real>, speed: Option<real>, node: string, e: MineEdge)
    requires net.Valid() && PlainIds(net) && RemoveSuffix(e.edgeId) != RemoveSuffix(id)
    ensures var after := Updated(net, id, status, risk, speed);
            after.Valid() && (e in ListOf(after, node, |after.order|) <==> e in ListOf(net, node, |net.order|))
  {
    hide EntriesOf, ListOf, RemoveSuffix, WithStatus, Network.Valid, PlainIds;
    var after := Updated(net, id, status, risk, speed);
    UpdatedIsValid(net, id, status, risk, speed);
    if e in ListOf(after, node, |after.order|) {
      EntryStays(after, net, RemoveSuffix(id), node, e);
    }
    if e in ListOf(net, node, |net.order|) {
      EntryStays(net, after, RemoveSuffix(id), node, e);
    }
  }

  lemma EntriesChange(a: MineEdge, node: string, status: RoadStatus, risk: Option<real>, speed: Option<real>, e: MineEdge)
    ensures e in EntriesOf(a, node) ==>
              WithStatus(e, status, risk, speed) in EntriesOf(WithStatus(a, status, risk, speed), node)
    ensures e in EntriesOf(WithStatus(a, status, risk, speed), node) ==>
              e.status == status && exists f | f in EntriesOf(a, node) :: e == WithStatus(f, status, risk, speed)
  {
    var b := WithStatus(a, status, risk, speed);
    if e in EntriesOf(b, node) {
      var f := if e == b && b.fromNode == node then a else Reverse(a);
      assert f in EntriesOf(a, node) && e == WithStatus(f, status, risk, speed);
    }
  }

  /** Both directions of the named edge change together: its entries after the
      update are its entries before with the new status. */
  lemma BothDirectionsChange(
    net: Network, id: string, status: RoadStatus, risk: Option<real>, speed: Option<real>, node: string, e: MineEdge)
    requires net.Valid() && PlainIds(net) && RemoveSuffix(e.edgeId) == RemoveSuffix(id)
    ensures var after := Updated(net, id, status, risk, speed);
            && after.Valid()
            && (e in ListOf(net, node, |net.order|) ==> WithStatus(e, status, risk, speed) in ListOf(after, node, |after.order|))
            && (e in ListOf(after, node, |after.order|) ==>
                  e.status == status
                  && exists f | f in ListOf(net, node, |net.order|) :: e == WithStatus(f, status, risk, speed))
  {
    hide ListOf, RemoveSuffix, EntriesOf, WithStatus;
    var after, base := Updated(net, id, status, risk, speed), RemoveSuffix(id);
    UpdatedIsValid(net, id, status, risk, speed);
    if e in ListOf(after, node, |after.order|) {
      EntryFrom(after, node, e);
      var k :| k in after.edges && IsEntry(after, node, e, k);
      EntryHasBase(after, node, e, k);
      EntriesChange(net.edges[k], node, status, risk, speed, e);
      var f :| f in EntriesOf(net.edges[k], node) && e == WithStatus(f, status, risk, speed);
      assert IsEntry(net, node, f, k);
      EntryTo(net, node, f, k);
    }
    if e in ListOf(net, node, |net.order|) {
      EntryFrom(net, node, e);
      var k :| k in net.edges && IsEntry(net, node, e, k);
      EntryHasBase(net, node, e, k);
      EntriesChange(net.edges[k], node, status, risk, speed, e);
      assert IsEntry(after, node, WithStatus(e, status, risk, speed), k);
      EntryTo(after, node, WithStatus(e, status, risk, speed), k);
    }
  }

  lemma EntryHasBase(net: Network, node: string, e: MineEdge, id: string)
    requires net.Valid() && PlainIds(net) && IsEntry(net, node, e, id)
    ensures RemoveSuffix(e.edgeId) == id
  {
    RemoveSuffixOfReverse(id);
    assert IsPlain(id);
  }

  // ---------------------------------------------------------------------------
  // The graph object
  // ---------------------------------------------------------------------------

  class MineRoadGraph {
    var network: Network
    var adjacency: map<string, seq<MineEdge>>

    /** The index is up to date. */
    ghost predicate Valid()
      reads this
    {
      IsIndexOf(network, adjacency)
    }

    constructor (network: Network)
      requires network.Valid()
      ensures Valid() && this.network == network
    {
      this.network := network;
      adjacency := map[];
      new;
      RebuildAdjacency();
    }

    method RebuildAdjacency()
      requires network.Valid()
      modifies this`adjacency
      ensures Valid()
    {
      hide Network.Valid, ListOf, EntriesOf;
      adjacency := map node | node in network.nodes :: [];
      OrderIsKnown(network);
      ListsStartEmpty(network);
      for i := 0 to |network.order|
        invariant network == old(network) && adjacency.Keys == network.nodes
        invariant forall node | node in network.nodes :: adjacency[node] == ListOf(network, node, i)
      {
        IndexEdge(network.edges[network.order[i]]);
        ListsGrow(network, i);
      }
    }

    method IndexEdge(edge: MineEdge)
      modifies this`adjacency
      ensures adjacency.Keys == old(adjacency).Keys
      ensures forall node | node in adjacency :: adjacency[node] == old(adjacency)[node] + EntriesOf(edge, node)
    {
      if edge.fromNode in adjacency {
        adjacency := adjacency[edge.fromNode := adjacency[edge.fromNode] + [edge]];
      }
      if edge.bidirectional && edge.toNode in adjacency {
        adjacency := adjacency[edge.toNode := adjacency[edge.toNode] + [Reverse(edge)]];
      }
    }

    method UpdateEdgeStatus(id: string, status: RoadStatus, risk: Option<real>, speed: Option<real>)
      returns (updated: Option<MineEdge>)
      requires Valid()
      modifies this
      ensures Valid() && network == Updated(old(network), id, status, risk, speed)
      ensures updated == if RemoveSuffix(id) in old(network).edges then Some(network.edges[RemoveSuffix(id)]) else None
    {
      var base := RemoveSuffix(id);
      if base !in network.edges {
        return None;
      }
      var edge := network.edges[base].(status := status);
      if risk.Some? {
        edge := edge.(riskPenalty := if risk.value > 0.0 then risk.value else 0.0);
      }
      if speed.Some? {
        edge := edge.(speedLimit := if speed.value > 1.0 then speed.value else 1.0);
      }
      UpdatedIsValid(network, id, status, risk, speed);
      network := network.(edges := network.edges[base := edge]);
      RebuildAdjacency();
      updated := Some(edge);
    }
  }
}
