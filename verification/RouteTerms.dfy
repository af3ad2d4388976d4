/** What a route costs in terms of the roads themselves: which road of the network each leg drives, in which
    direction, and what each of the seven terms and the travel time then come to. */
module RouteTerms {
  import opened Options
  import opened MineGraph
  import opened RouteCost
  import opened Routing
  import opened RouteOptimizer

  // ---------------------------------------------------------------------------
  // Roads and legs
  // ---------------------------------------------------------------------------

  /** The leg drives the road as it is stored, or a two-way road from its other end. */
  predicate Drives(road: MineEdge, forward: bool, h: Hop) {
    if forward then h.node == road.fromNode && Target(h.node, h.edge) == road.toNode && h.edge.edgeId == road.edgeId
    else
      && road.bidirectional && h.node == road.toNode && Target(h.node, h.edge) == road.fromNode
      && h.edge.edgeId == road.edgeId + REV
  }

  /** The grade in the direction driven. */
  function GradeDriven(road: MineEdge, forward: bool): real { if forward then road.gradient else 0.0 - road.gradient }

  /** Every leg that can be driven drives a road of the network, at a cost that the road and the direction give. */
  lemma LegDrivesRoad(net: Network, x: Problem, h: Hop) returns (id: string, forward: bool)
    requires IsIndexOf(net, x.out) && net.nodes == x.nodes && Arc(x, h.node, h.edge)
    ensures id in net.edges && Drives(net.edges[id], forward, h)
    ensures IsCostOf(CostFrom(x, h.node, h.edge).value, net.edges[id], GradeDriven(net.edges[id], forward), x.request, x.power)
  {
    hide ListOf, PayloadCost, GradientCost, TrafficCost, TravelTime, IsCostOf;
    EntryFrom(net, h.node, h.edge);
    id :| id in net.edges && IsEntry(net, h.node, h.edge, id);
    var road := net.edges[id];
    forward := road.fromNode == h.node && h.edge == road;
    CostIsOfRoad(x, h.node, h.edge);
    if forward {
      assert Gradient(h.node, h.edge) == road.gradient;
    } else {
      assert h.edge == Reverse(road) && Gradient(h.node, h.edge) == 0.0 - road.gradient;
      SameRoadSameCost(CostFrom(x, h.node, h.edge).value, road, GradeDriven(road, false), x.request, x.power);
    }
  }

  /** A road that is open and bears the gross weight can be driven along, and back when it is two-way. */
  lemma RoadCanBeDriven(net: Network, x: Problem, id: string, forward: bool) returns (h: Hop)
    requires IsIndexOf(net, x.out) && net.nodes == x.nodes && id in net.edges
    requires net.edges[id].fromNode in net.nodes && net.edges[id].toNode in net.nodes
    requires forward || net.edges[id].bidirectional
    requires !net.edges[id].status.Closed? && x.request.tare + x.request.payload <= net.edges[id].maxWeight
    ensures Drives(net.edges[id], forward, h) && Arc(x, h.node, h.edge)
  {
    hide ListOf, PayloadCost, GradientCost, TrafficCost, TravelTime;
    var road := net.edges[id];
    h := if forward then Hop(road.fromNode, road) else Hop(road.toNode, Reverse(road));
    assert IsEntry(net, h.node, h.edge, id);
    EntryTo(net, h.node, h.edge, id);
  }

  // ---------------------------------------------------------------------------
  // The terms
  // ---------------------------------------------------------------------------

  /** The speed in km/h: what is left of the limit loaded, uphill from any payload and downhill steeper than
      8 percent from half of the nominal 100 t, and never less than 8. */
  function Speed(road: MineEdge, grade: real, payload: real): real {
    var left := if grade > 0.0 && payload > 0.0 then Max(0.4, 1.0 - payload * grade / 2000.0)
                else if grade < -8.0 && payload > 50.0 then Max(0.45, 1.0 + payload * grade / 2200.0)
                else 1.0;
    Max(8.0, road.speedLimit * left)
  }

  /** It takes this time to drive d metres of the road. */
  predicate TimeIs(time: real, road: MineEdge, grade: real, payload: real) {
    time * Speed(road, grade, payload) == 3.6 * road.distance
  }

  /** Only climbing costs, by grade and weight. */
  predicate GradientIs(cost: real, weight: real, d: real, grade: real, payload: real) {
    if grade > 0.0 then 1000.0 * cost == weight * d * grade * (30.0 + 2.5 * payload) else cost == 0.0
  }

  /** A load costs uphill by the square of the grade, and steeply downhill from 30 t by the retarder's power. */
  predicate PayloadIs(cost: real, weight: real, d: real, grade: real, payload: real, power: Power) {
    if grade > 0.0 then 3600.0 * cost == weight * d * payload * grade * grade
    else if grade < -7.0 && payload > 30.0 then 100.0 * cost == weight * d * payload * power((0.0 - grade) / 7.0)
    else cost == 0.0
  }

  /** Fewer lanes cost more. */
  predicate TrafficIs(cost: real, weight: real, d: real, lanes: int) {
    (if lanes > 1 then lanes as real else 1.0) * cost == 2.0 * weight * d
  }

  /** The seven terms and the travel time of driving the road at that grade. */
  ghost predicate IsCostOf(c: EdgeCost, road: MineEdge, grade: real, q: Request, power: Power) {
    var w, d := q.weights, road.distance;
    && c.distance == d && c.gradient == grade && TimeIs(c.travelTime, road, grade, q.payload)
    && c.distanceCost == w.distance * d
    && c.timeCost == w.travelTime * c.travelTime
    && GradientIs(c.gradientCost, w.gradient, d, grade, q.payload)
    && PayloadIs(c.payloadCost, w.payload, d, grade, q.payload, power)
    && c.conditionCost == (if road.status.Restricted? then 15.0 * w.roadCondition else 0.0)
    && TrafficIs(c.trafficCost, w.traffic, d, road.lanes)
    && c.safetyCost == w.safety * road.riskPenalty
    && c.total == c.distanceCost + c.timeCost + c.payloadCost + c.conditionCost + c.gradientCost + c.trafficCost + c.safetyCost
  }

  lemma SameRoadSameCost(c: EdgeCost, road: MineEdge, grade: real, q: Request, power: Power)
    ensures IsCostOf(c, Reverse(road), grade, q, power) <==> IsCostOf(c, road, grade, q, power)
  {
    hide Speed, GradientIs, PayloadIs, TrafficIs;
    assert Speed(Reverse(road), grade, q.payload) == Speed(road, grade, q.payload) by {
      SpeedOfReverse(road, grade, q.payload);
    }
  }

  lemma SpeedOfReverse(road: MineEdge, grade: real, payload: real)
    ensures Speed(Reverse(road), grade, payload) == Speed(road, grade, payload)
  {
  }

  lemma TimesQuotient(a: real, b: real)
    requires b != 0.0
    ensures a / b * b == a
  {
  }

  lemma SpeedIsEffective(e: MineEdge, grade: real, payload: real)
    ensures Speed(e, grade, payload) == EffectiveSpeed(e, grade, payload / 100.0)
  {
    var ratio := payload / 100.0;
    assert ratio * (grade / 20.0) == payload * grade / 2000.0;
    if grade < 0.0 {
      assert ratio * (Abs(grade) / 22.0) == 0.0 - payload * grade / 2200.0;
    }
  }

  lemma TimeTimesSpeed(e: MineEdge, grade: real, payload: real)
    ensures TimeIs(TravelTime(e, grade, payload / 100.0), e, grade, payload)
  {
    hide Speed, EffectiveSpeed;
    SpeedIsEffective(e, grade, payload);
    var speed := EffectiveSpeed(e, grade, payload / 100.0);
    TimesQuotient(e.distance, speed / 3.6);
    assert TravelTime(e, grade, payload / 100.0) * (speed / 3.6) == e.distance;
    assert TravelTime(e, grade, payload / 100.0) * (speed / 3.6) * 3.6 == TravelTime(e, grade, payload / 100.0) * speed;
  }

  lemma GradientTerm(e: MineEdge, grade: real, payload: real, w: Weights)
    ensures GradientIs(GradientCost(e, grade, payload / 100.0, w), w.gradient, e.distance, grade, payload)
  {
    if grade > 0.0 {
      var a := w.gradient * e.distance;
      var f := 0.3 + 2.5 * (payload / 100.0);
      assert 100.0 * f == 30.0 + 2.5 * payload;
      assert 10.0 * (a * (grade / 10.0)) == a * grade;
      assert 1000.0 * (a * (grade / 10.0) * f) == (10.0 * (a * (grade / 10.0))) * (100.0 * f);
    }
  }

  lemma PayloadTerm(e: MineEdge, grade: real, payload: real, w: Weights, power: Power)
    ensures PayloadIs(PayloadCost(e, grade, payload / 100.0, w, power), w.payload, e.distance, grade, payload, power)
  {
    var a := w.payload * e.distance;
    var ratio := payload / 100.0;
    assert 100.0 * (a * ratio) == a * payload;
    if grade > 0.0 {
      var b := (grade / 6.0) * (grade / 6.0);
      assert 36.0 * b == grade * grade;
      assert 3600.0 * (a * ratio * b) == (100.0 * (a * ratio)) * (36.0 * b);
      assert a * payload * (grade * grade) == a * payload * grade * grade;
    } else {
      var f := power(Abs(grade) / 7.0);
      assert 100.0 * (a * ratio * f) == (100.0 * (a * ratio)) * f;
    }
  }

  lemma TrafficTerm(e: MineEdge, w: Weights)
    ensures TrafficIs(TrafficCost(e, w), w.traffic, e.distance, e.lanes)
  {
    var lanes := if e.lanes > 1 then e.lanes as real else 1.0;
    TimesQuotient(2.0, lanes);
    var a := w.traffic * e.distance;
    assert lanes * (a * (2.0 / lanes)) == a * (2.0 / lanes * lanes);
  }

  /** The parts of a cost, by name. */
  lemma CostParts(e: MineEdge, grade: real, payload: real, tare: real, w: Weights, power: Power)
    requires CalculateEdgeCost(e, grade, payload, tare, w, power).Some?
    ensures var c, ratio := CalculateEdgeCost(e, grade, payload, tare, w, power).value, payload / 100.0;
            && c.distance == e.distance && c.gradient == grade && c.travelTime == TravelTime(e, grade, ratio)
            && c.distanceCost == w.distance * e.distance && c.timeCost == w.travelTime * c.travelTime
            && c.payloadCost == PayloadCost(e, grade, ratio, w, power) && c.gradientCost == GradientCost(e, grade, ratio, w)
            && c.conditionCost == (if e.status.Restricted? then 15.0 * w.roadCondition else 0.0)
            && c.trafficCost == TrafficCost(e, w) && c.safetyCost == w.safety * e.riskPenalty
            && c.total == c.distanceCost + c.timeCost + c.payloadCost + c.conditionCost + c.gradientCost
                          + c.trafficCost + c.safetyCost
  {
    hide PayloadCost, GradientCost, TrafficCost, TravelTime;
  }

  /** The cost of taking an edge from a node is that of its road at the grade it then has. */
  lemma CostIsOfRoad(x: Problem, u: string, e: MineEdge)
    requires CostFrom(x, u, e).Some?
    ensures IsCostOf(CostFrom(x, u, e).value, e, Gradient(u, e), x.request, x.power)
  {
    hide CalculateEdgeCost, PayloadCost, GradientCost, TrafficCost, TravelTime, Gradient;
    hide TimeIs, GradientIs, PayloadIs, TrafficIs;
    var grade, q := Gradient(u, e), x.request;
    CostParts(e, grade, q.payload, q.tare, q.weights, x.power);
    TimeTimesSpeed(e, grade, q.payload);
    GradientTerm(e, grade, q.payload, q.weights);
    PayloadTerm(e, grade, q.payload, q.weights, x.power);
    TrafficTerm(e, q.weights);
  }

  // ---------------------------------------------------------------------------
  // Up and down
  // ---------------------------------------------------------------------------

  lemma ProductPositive(a: real, b: real)
    requires a > 0.0 && b > 0.0
    ensures a * b > 0.0
  {
  }

  lemma ProductsGrow(a: real, b: real, x: real, y: real)
    requires 0.0 <= a <= b && 0.0 <= x <= y
    ensures 0.0 <= a * x <= b * y
  {
    assert 0.0 <= a * x <= b * x <= b * y;
  }

  /** With a positive weight a leg pays for gradient exactly when it climbs its road in the direction driven:
      entered from the other end, exactly when the road falls. */
  lemma GradientFreeExactly(net: Network, x: Problem, h: Hop) returns (id: string, forward: bool)
    requires IsIndexOf(net, x.out) && net.nodes == x.nodes && Arc(x, h.node, h.edge)
    requires x.request.Valid() && x.request.weights.gradient > 0.0
    ensures id in net.edges && Drives(net.edges[id], forward, h)
    ensures CostFrom(x, h.node, h.edge).Some?
    ensures var cost := CostFrom(x, h.node, h.edge).value.gradientCost;
            && cost >= 0.0
            && (cost == 0.0 <==> if forward then net.edges[id].gradient <= 0.0 else net.edges[id].gradient >= 0.0)
  {
    hide ListOf, CostFrom, Drives, TimeIs, PayloadIs, TrafficIs;
    id, forward := LegDrivesRoad(net, x, h);
    var road, q := net.edges[id], x.request;
    if GradeDriven(road, forward) > 0.0 {
      ProductPositive(q.weights.gradient, road.distance);
      ProductPositive(q.weights.gradient * road.distance, GradeDriven(road, forward));
      ProductPositive(q.weights.gradient * road.distance * GradeDriven(road, forward), 30.0 + 2.5 * q.payload);
    }
  }

  /** From level ground upwards time, payload and gradient grow with the grade and the load. */
  lemma ClimbingCostsMore(
    road: MineEdge, c: EdgeCost, grade: real, q: Request, d: EdgeCost, steeper: real, heavier: Request, power: Power)
    requires road.Valid() && q.Valid() && heavier == q.(payload := heavier.payload) && q.payload <= heavier.payload
    requires 0.0 <= grade <= steeper
    requires IsCostOf(c, road, grade, q, power) && IsCostOf(d, road, steeper, heavier, power)
    ensures c.travelTime <= d.travelTime && c.timeCost <= d.timeCost
    ensures c.payloadCost <= d.payloadCost && c.gradientCost <= d.gradientCost
  {
    hide Speed, GradientIs, PayloadIs, TrafficIs;
    var w, m := q.weights, road.distance;
    SlowerUphill(road, grade, q.payload, steeper, heavier.payload);
    LongerWhenSlower(c.travelTime, Speed(road, grade, q.payload), d.travelTime, Speed(road, steeper, heavier.payload), 3.6 * m);
    ProductsGrow(w.travelTime, w.travelTime, c.travelTime, d.travelTime);
    GradientGrows(c.gradientCost, d.gradientCost, w.gradient, m, grade, q.payload, steeper, heavier.payload);
    PayloadGrows(c.payloadCost, d.payloadCost, w.payload, m, grade, q.payload, steeper, heavier.payload, power);
  }

  lemma GradientGrows(
    cost: real, more: real, weight: real, d: real, grade: real, payload: real, steeper: real, heavier: real)
    requires weight >= 0.0 && d >= 0.0 && 0.0 <= grade <= steeper && 0.0 <= payload <= heavier
    requires GradientIs(cost, weight, d, grade, payload) && GradientIs(more, weight, d, steeper, heavier)
    ensures cost <= more
  {
    ProductsGrow(weight, weight, d, d);
    var a := weight * d;
    ProductsGrow(a, a, grade, steeper);
    ProductsGrow(a * grade, a * steeper, 30.0 + 2.5 * payload, 30.0 + 2.5 * heavier);
    if grade == 0.0 && steeper > 0.0 {
      assert 1000.0 * more == a * steeper * (30.0 + 2.5 * heavier);
    }
  }

  lemma PayloadGrows(
    cost: real, more: real, weight: real, d: real, grade: real, payload: real, steeper: real, heavier: real, power: Power)
    requires weight >= 0.0 && d >= 0.0 && 0.0 <= grade <= steeper && 0.0 <= payload <= heavier
    requires PayloadIs(cost, weight, d, grade, payload, power) && PayloadIs(more, weight, d, steeper, heavier, power)
    ensures cost <= more
  {
    ProductsGrow(weight, weight, d, d);
    var a := weight * d;
    ProductsGrow(a, a, payload, heavier);
    ProductsGrow(a * payload, a * heavier, grade, steeper);
    ProductsGrow(a * payload * grade, a * heavier * steeper, grade, steeper);
  }

  lemma SlowerUphill(road: MineEdge, grade: real, payload: real, steeper: real, heavier: real)
    requires road.Valid() && 0.0 <= grade <= steeper && 0.0 <= payload <= heavier
    ensures 8.0 <= Speed(road, steeper, heavier) <= Speed(road, grade, payload)
  {
    ProductsGrow(payload, heavier, grade, steeper);
    var left := if grade > 0.0 && payload > 0.0 then Max(0.4, 1.0 - payload * grade / 2000.0) else 1.0;
    var less := if steeper > 0.0 && heavier > 0.0 then Max(0.4, 1.0 - heavier * steeper / 2000.0) else 1.0;
    assert 0.0 <= less <= left;
    ProductsGrow(road.speedLimit, road.speedLimit, less, left);
  }

  lemma LongerWhenSlower(t: real, fast: real, u: real, slow: real, way: real)
    requires t * fast == way == u * slow && 0.0 < slow <= fast && way >= 0.0
    ensures 0.0 <= t <= u
  {
    FactorNonNegative(t, fast);
    ProductsGrow(slow, fast, t, t);
    assert (u - t) * slow == u * slow - t * slow;
    FactorNonNegative(u - t, slow);
  }

  lemma FactorNonNegative(a: real, b: real)
    requires a * b >= 0.0 && b > 0.0
    ensures a >= 0.0
  {
  }

  // ---------------------------------------------------------------------------
  // The whole route
  // ---------------------------------------------------------------------------

  datatype Term = Metres | Seconds | Distance | Time | Payload | Condition | Grade | Traffic | Safety | Total

  /** One term of one leg. */
  function Amount(c: EdgeCost, t: Term): real {
    match t
    case Metres => c.distance
    case Seconds => c.travelTime
    case Distance => c.distanceCost
    case Time => c.timeCost
    case Payload => c.payloadCost
    case Condition => c.conditionCost
    case Grade => c.gradientCost
    case Traffic => c.trafficCost
    case Safety => c.safetyCost
    case Total => c.total
  }

  /** The same term of a route. */
  function Reported(r: NavigationRoute, t: Term): real {
    match t
    case Metres => r.distance
    case Seconds => r.time
    case Distance => r.breakdown.distanceCost
    case Time => r.breakdown.timeCost
    case Payload => r.breakdown.payloadCost
    case Condition => r.breakdown.conditionCost
    case Grade => r.breakdown.gradientCost
    case Traffic => r.breakdown.trafficCost
    case Safety => r.breakdown.safetyCost
    case Total => r.breakdown.total
  }

  function SumOf(costs: seq<EdgeCost>, t: Term): real {
    if costs == [] then 0.0 else SumOf(costs[..|costs| - 1], t) + Amount(costs[|costs| - 1], t)
  }

  lemma {:induction false} SumsAreTermwise(costs: seq<EdgeCost>, t: Term)
    ensures Amount(Sum(costs), t) == SumOf(costs, t)
  {
    if costs != [] {
      SumsAreTermwise(costs[..|costs| - 1], t);
    }
  }

  /** The cost is that of driving some road of the network along or back, as the leg does. */
  ghost predicate IsCostOfLeg(net: Network, x: Problem, h: Hop, c: EdgeCost) {
    exists id: string, forward: bool ::
      id in net.edges && Drives(net.edges[id], forward, h)
      && IsCostOf(c, net.edges[id], GradeDriven(net.edges[id], forward), x.request, x.power)
  }

  /** Each leg ends where the next one begins. */
  lemma {:induction false} PathLinks(x: Problem, hops: seq<Hop>, a: string, b: string)
    requires IsPath(x, hops, a, b)
    ensures forall i | 0 <= i < |hops| :: Target(hops[i].node, hops[i].edge) == Nodes(hops, b)[i + 1]
    ensures Nodes(hops, b)[0] == a
  {
    hide Arc, Target;
    if hops != [] {
      var last := |hops| - 1;
      PathLinks(x, hops[..last], a, hops[last].node);
      assert forall i | 0 <= i <= last :: Nodes(hops, b)[i] == Nodes(hops[..last], hops[last].node)[i];
    }
  }

  lemma {:induction false} ReportedTermwise(x: Problem, hops: seq<Hop>, r: NavigationRoute) returns (costs: seq<EdgeCost>)
    requires Reports(x, hops, r)
    ensures CostsOf(x, hops, costs) && forall t: Term :: Reported(r, t) == SumOf(costs, t)
  {
    hide CostsOf, PathCost, Ids, Nodes, Sum, SumOf;
    costs :| CostsOf(x, hops, costs)
             && r.distance == Sum(costs).distance && r.time == Sum(costs).travelTime
             && r.breakdown == Breakdown(
                  Sum(costs).distanceCost, Sum(costs).timeCost, Sum(costs).payloadCost, Sum(costs).conditionCost,
                  Sum(costs).gradientCost, Sum(costs).trafficCost, Sum(costs).safetyCost, Sum(costs).total);
    forall t: Term ensures Reported(r, t) == SumOf(costs, t) {
      SumsAreTermwise(costs, t);
    }
  }

  lemma LegsAreCosted(net: Network, x: Problem, hops: seq<Hop>, costs: seq<EdgeCost>)
    requires IsIndexOf(net, x.out) && net.nodes == x.nodes && CostsOf(x, hops, costs)
    requires forall h | h in hops :: Arc(x, h.node, h.edge)
    ensures forall i | 0 <= i < |hops| :: IsCostOfLeg(net, x, hops[i], costs[i])
  {
    hide IsIndexOf, CostFrom, IsCostOf, Drives, Arc;
    forall i | 0 <= i < |hops| ensures IsCostOfLeg(net, x, hops[i], costs[i]) {
      assert hops[i] in hops;
      var id, forward := LegDrivesRoad(net, x, hops[i]);
    }
  }

  lemma ReportedPlaces(x: Problem, hops: seq<Hop>, r: NavigationRoute)
    requires IsPath(x, hops, x.request.start, x.request.end) && Reports(x, hops, r)
    ensures |r.edgeIds| == |hops| && |r.pathNodes| == |hops| + 1
    ensures forall i | 0 <= i < |hops| ::
              && r.edgeIds[i] == hops[i].edge.edgeId && r.pathNodes[i] == hops[i].node
              && r.pathNodes[i + 1] == Target(hops[i].node, hops[i].edge)
  {
    hide IsPath, CostsOf, Sum, PathCost, Target;
    PathLinks(x, hops, x.request.start, x.request.end);
  }

  /** Every figure a route reports is the sum over its legs of what driving their roads comes to. */
  lemma RouteIsCosted(net: Network, x: Problem, hops: seq<Hop>, r: NavigationRoute) returns (costs: seq<EdgeCost>)
    requires IsIndexOf(net, x.out) && net.nodes == x.nodes && Cheapest(x, hops) && Reports(x, hops, r)
    ensures |costs| == |hops| && |r.edgeIds| == |hops| && |r.pathNodes| == |hops| + 1
    ensures forall i | 0 <= i < |hops| ::
              && r.edgeIds[i] == hops[i].edge.edgeId && r.pathNodes[i] == hops[i].node
              && r.pathNodes[i + 1] == Target(hops[i].node, hops[i].edge)
              && IsCostOfLeg(net, x, hops[i], costs[i])
    ensures forall t: Term :: Reported(r, t) == SumOf(costs, t)
  {
    hide IsIndexOf, Reports, Reported, SumOf, IsPath, PathCost, Arc, IsCostOfLeg, Target, CostFrom;
    costs := ReportedTermwise(x, hops, r);
    PathArcs(x, hops, x.request.start, x.request.end);
    LegsAreCosted(net, x, hops, costs);
    ReportedPlaces(x, hops, r);
  }
}
