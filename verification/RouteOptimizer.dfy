/** The route search as it runs: a heap with stale entries, early exit at the
    destination, and the path read back from the links. */
module RouteOptimizer {
  import opened Options
  import opened MineGraph
  import opened RouteCost
  import opened Routing
  import Strings

  datatype Breakdown = Breakdown(
    distanceCost: real, timeCost: real, payloadCost: real, conditionCost: real,
    gradientCost: real, trafficCost: real, safetyCost: real, total: real)
  {
    function TermSum(): real {
      distanceCost + timeCost + payloadCost + conditionCost + gradientCost + trafficCost + safetyCost
    }
  }

  datatype NavigationRoute = NavigationRoute(
    start: string, end: string, payload: real, pathNodes: seq<string>, edgeIds: seq<string>,
    distance: real, time: real, breakdown: Breakdown)

  datatype RerouteAdvisory = RerouteAdvisory(triggerEdgeId: string, newRoute: NavigationRoute)

  // ---------------------------------------------------------------------------
  // What a route reports
  // ---------------------------------------------------------------------------

  function Ids(hops: seq<Hop>): seq<string> { seq(|hops|, i requires 0 <= i < |hops| => hops[i].edge.edgeId) }

  function Nodes(hops: seq<Hop>, end: string): seq<string> {
    seq(|hops|, i requires 0 <= i < |hops| => hops[i].node) + [end]
  }

  function Sum(costs: seq<EdgeCost>): EdgeCost {
    if costs == [] then EdgeCost(0.0, 0.0, 0.0, 0.0, 0.0, 0.0, 0.0, 0.0, 0.0, 0.0, 0.0)
    else
      var s, c := Sum(costs[..|costs| - 1]), costs[|costs| - 1];
      EdgeCost(
        s.total + c.total, s.distanceCost + c.distanceCost, s.timeCost + c.timeCost, s.payloadCost + c.payloadCost,
        s.conditionCost + c.conditionCost, s.gradientCost + c.gradientCost, s.trafficCost + c.trafficCost,
        s.safetyCost + c.safetyCost, s.travelTime + c.travelTime, 0.0, s.distance + c.distance)
  }

  /** The costs of the legs, in the order driven. */
  ghost predicate CostsOf(x: Problem, hops: seq<Hop>, costs: seq<EdgeCost>) {
    |costs| == |hops| && forall i | 0 <= i < |hops| :: CostFrom(x, hops[i].node, hops[i].edge) == Some(costs[i])
  }

  /** The route reports the path: its nodes, its edges, and costs that add up. */
  ghost predicate Reports(x: Problem, hops: seq<Hop>, r: NavigationRoute) {
    && r.start == x.request.start && r.end == x.request.end && r.payload == x.request.payload
    && r.edgeIds == Ids(hops) && r.pathNodes == Nodes(hops, r.end)
    && r.breakdown.total == r.breakdown.TermSum() == PathCost(x, hops)
    && exists costs | CostsOf(x, hops, costs) ::
         && r.distance == Sum(costs).distance && r.time == Sum(costs).travelTime
         && r.breakdown == Breakdown(
              Sum(costs).distanceCost, Sum(costs).timeCost, Sum(costs).payloadCost, Sum(costs).conditionCost,
              Sum(costs).gradientCost, Sum(costs).trafficCost, Sum(costs).safetyCost, Sum(costs).total)
  }

  /** The path costs no more than any other from start to end. */
  ghost predicate Cheapest(x: Problem, hops: seq<Hop>) {
    && IsPath(x, hops, x.request.start, x.request.end)
    && forall others | IsPath(x, others, x.request.start, x.request.end) :: PathCost(x, hops) <= PathCost(x, others)
  }

  /** The seven sums of a path add up to what the path costs. */
  lemma {:induction false} SumsAddUp(x: Problem, hops: seq<Hop>, costs: seq<EdgeCost>)
    requires x.Valid() && CostsOf(x, hops, costs) && forall h | h in hops :: Arc(x, h.node, h.edge)
    ensures var s := Sum(costs);
            && s.total == PathCost(x, hops)
            && s.total == s.distanceCost + s.timeCost + s.payloadCost + s.conditionCost + s.gradientCost + s.trafficCost + s.safetyCost
  {
    hide CalculateEdgeCost;
    if hops != [] {
      var last := |hops| - 1;
      SumsAddUp(x, hops[..last], costs[..last]);
      var h := hops[last];
      EdgeCostTerms(h.edge, Gradient(h.node, h.edge), x.request.payload, x.request.tare, x.request.weights, x.power);
    }
  }

  lemma {:induction false} PathArcs(x: Problem, hops: seq<Hop>, a: string, b: string)
    requires IsPath(x, hops, a, b)
    ensures forall h | h in hops :: Arc(x, h.node, h.edge)
  {
    hide Arc;
    if hops != [] {
      PathArcs(x, hops[..|hops| - 1], a, hops[|hops| - 1].node);
    }
  }

  // ---------------------------------------------------------------------------
  // The heap
  // ---------------------------------------------------------------------------

  /** Entries compare by cost, then by node. */
  predicate Before(a: Entry, b: Entry) { a.cost < b.cost || (a.cost == b.cost && Strings.Less(a.node, b.node)) }

  /** Take the least entry off the heap. */
  method PopMin(queue: seq<Entry>) returns (popped: Entry, rest: seq<Entry>)
    requires queue != []
    ensures PoppedFrom(queue, popped, rest)
    ensures forall q | q in queue ::
              popped.cost < q.cost || (popped.cost == q.cost && !Strings.Less(q.node, popped.node))
    ensures multiset(queue) == multiset(rest) + multiset{popped}
  {
    var least := 0;
    Strings.LessIsIrreflexive(queue[0].node);
    for i := 1 to |queue|
      invariant least < |queue|
      invariant forall j | 0 <= j < i :: !Before(queue[j], queue[least])
    {
      if Before(queue[i], queue[least]) {
        forall j | 0 <= j < i ensures !Before(queue[j], queue[i]) {
          if Before(queue[j], queue[i]) {
            if Strings.Less(queue[j].node, queue[i].node) && Strings.Less(queue[i].node, queue[least].node) {
              Strings.LessIsTransitive(queue[j].node, queue[i].node, queue[least].node);
            }
          }
        }
        Strings.LessIsIrreflexive(queue[i].node);
        least := i;
      }
    }
    popped := queue[least];
    rest := queue[..least] + queue[least + 1..];
    assert queue == queue[..least] + [popped] + queue[least + 1..];
  }

  // ---------------------------------------------------------------------------
  // Relaxing
  // ---------------------------------------------------------------------------

  lemma NothingRelaxedYet(x: Problem, s: State, u: string, cost: real)
    requires s.prev.Keys <= s.dist.Keys
    ensures RelaxedFrom(x, s, s, u, cost, 0)
  {
    hide CostFrom, Arc;
  }

  /** What the search does with one improving arc. */
  function Improve(t: State, u: string, e: MineEdge, c: EdgeCost, cost: real): State {
    var v := Target(u, e);
    State(t.queue + [Entry(cost + c.total, v)], t.dist[v := cost + c.total], t.prev[v := Link(u, e, c)])
  }

  lemma ImproveLowers(x: Problem, s: State, t: State, u: string, cost: real, e: MineEdge, c: EdgeCost)
    requires Lowered(x, s, t) && Target(u, e) in x.nodes
    requires Target(u, e) in t.dist ==> cost + c.total < t.dist[Target(u, e)]
    ensures Lowered(x, s, Improve(t, u, e, c, cost))
  {
  }

  lemma ImproveQueues(x: Problem, s: State, t: State, u: string, cost: real, e: MineEdge, c: EdgeCost)
    requires Lowered(x, s, t) && QueueGrew(s, t, cost) && c.total >= 0.0
    requires Target(u, e) in t.dist ==> cost + c.total < t.dist[Target(u, e)]
    ensures QueueGrew(s, Improve(t, u, e, c, cost), cost)
  {
    var v, r := Target(u, e), Improve(t, u, e, c, cost);
    assert v in r.dist && !Unchanged(s, r, v);
    forall q | q in r.queue
      ensures q in s.queue || (cost <= q.cost && q.node in r.dist && r.dist[q.node] <= q.cost)
    {
      assert q in t.queue || q == Entry(cost + c.total, v);
    }
  }

  lemma ImproveChanges(x: Problem, s: State, t: State, u: string, cost: real, e: MineEdge, c: EdgeCost)
    requires Lowered(x, s, t) && ChangedByArcs(x, s, t, u, cost) && Arc(x, u, e) && CostFrom(x, u, e) == Some(c)
    requires Target(u, e) in t.dist ==> cost + c.total < t.dist[Target(u, e)]
    ensures ChangedByArcs(x, s, Improve(t, u, e, c, cost), u, cost)
  {
    hide Unchanged, Improved, CostFrom, Arc;
    var v, r := Target(u, e), Improve(t, u, e, c, cost);
    forall w | w in r.dist ensures Unchanged(s, r, w) || Improved(x, s, r, u, cost, w) {
      if w != v {
        ImproveLeavesOthers(x, s, t, u, cost, e, c, w);
      } else {
        ImproveImproves(x, s, t, u, cost, e, c);
      }
    }
  }

  lemma ImproveLeavesOthers(x: Problem, s: State, t: State, u: string, cost: real, e: MineEdge, c: EdgeCost, w: string)
    requires w != Target(u, e)
    ensures Unchanged(s, t, w) ==> Unchanged(s, Improve(t, u, e, c, cost), w)
    ensures Improved(x, s, t, u, cost, w) ==> Improved(x, s, Improve(t, u, e, c, cost), u, cost, w)
  {
    hide CostFrom, Arc, Target;
  }

  lemma ImproveImproves(x: Problem, s: State, t: State, u: string, cost: real, e: MineEdge, c: EdgeCost)
    requires Lowered(x, s, t) && Arc(x, u, e) && CostFrom(x, u, e) == Some(c)
    requires Target(u, e) in t.dist ==> cost + c.total < t.dist[Target(u, e)]
    ensures Improved(x, s, Improve(t, u, e, c, cost), u, cost, Target(u, e))
  {
    hide CostFrom, Arc, Target;
    var v, r := Target(u, e), Improve(t, u, e, c, cost);
    assert Entry(r.dist[v], v) in r.queue;
  }

  lemma RelaxedFromImproves(x: Problem, s: State, t: State, u: string, cost: real, i: nat, c: EdgeCost)
    requires x.Valid() && RelaxedFrom(x, s, t, u, cost, i) && i < |Outgoing(x, u)|
    requires var e := Outgoing(x, u)[i];
             && Arc(x, u, e) && CostFrom(x, u, e) == Some(c)
             && (Target(u, e) in t.dist ==> cost + c.total < t.dist[Target(u, e)])
    ensures RelaxedFrom(x, s, Improve(t, u, Outgoing(x, u)[i], c, cost), u, cost, i + 1)
  {
    hide CostFrom, Lowered, QueueGrew, ChangedByArcs;
    var e := Outgoing(x, u)[i];
    var r := Improve(t, u, e, c, cost);
    ArcCostNonNegative(x, u, e);
    ImproveLowers(x, s, t, u, cost, e, c);
    ImproveQueues(x, s, t, u, cost, e, c);
    ImproveChanges(x, s, t, u, cost, e, c);
    forall j | 0 <= j < i + 1 && j < |Outgoing(x, u)| ensures Reached(x, r, u, cost, Outgoing(x, u)[j]) {
      if j < i {
        assert Reached(x, t, u, cost, Outgoing(x, u)[j]);
      }
    }
  }

  lemma RelaxedFromSkips(x: Problem, s: State, t: State, u: string, cost: real, i: nat)
    requires RelaxedFrom(x, s, t, u, cost, i) && i < |Outgoing(x, u)|
    requires Reached(x, t, u, cost, Outgoing(x, u)[i])
    ensures RelaxedFrom(x, s, t, u, cost, i + 1)
  {
    hide CostFrom, Arc, Lowered, QueueGrew, ChangedByArcs, Reached;
  }

  /** The inner loop of the search: relax every outgoing edge of u at its distance. */
  method Relax(x: Problem, s: State, u: string, cost: real) returns (t: State)
    requires x.Valid() && s.prev.Keys <= s.dist.Keys
    ensures RelaxedFrom(x, s, t, u, cost, |Outgoing(x, u)|)
  {
    hide CostFrom, RelaxedFrom;
    t := s;
    NothingRelaxedYet(x, s, u, cost);
    var outgoing := Outgoing(x, u);
    for i := 0 to |outgoing|
      invariant RelaxedFrom(x, s, t, u, cost, i)
    {
      var e := outgoing[i];
      var target := Target(u, e);
      var edgeCost := CostFrom(x, u, e);
      if target in x.nodes && edgeCost.Some? {
        var tentative := cost + edgeCost.value.total;
        if target !in t.dist || tentative < t.dist[target] {
          RelaxedFromImproves(x, s, t, u, cost, i, edgeCost.value);
          t := Improve(t, u, e, edgeCost.value, cost);
        } else {
          RelaxedFromSkips(x, s, t, u, cost, i);
        }
      } else {
        RelaxedFromSkips(x, s, t, u, cost, i);
      }
    }
  }

  // ---------------------------------------------------------------------------
  // Searching
  // ---------------------------------------------------------------------------

  /** The search is over: the links lead back from the destination and its
      distance is the least cost, or there is no path. */
  ghost predicate Found(x: Problem, s: State, rank: map<string, nat>) {
    && Rooted(x, s) && Settled(x, s, rank) && x.request.end in s.dist
    && forall hops | IsPath(x, hops, x.request.start, x.request.end) :: s.dist[x.request.end] <= PathCost(x, hops)
  }

  lemma InitialState(x: Problem)
    requires x.request.start in x.nodes
    ensures Searching(x, State([Entry(0.0, x.request.start)], map[x.request.start := 0.0], map[]), map[], 0.0)
  {
    hide CostFrom, Arc;
  }

  lemma PrevWithinDist(x: Problem, s: State)
    requires Rooted(x, s)
    ensures s.prev.Keys <= s.dist.Keys
  {
  }

  method Search(x: Problem) returns (s: State, ghost rank: map<string, nat>, found: bool)
    requires x.Valid() && x.request.start in x.nodes
    ensures found ==> Found(x, s, rank)
    ensures !found ==> !Traversable(x) && x.request.start != x.request.end
    ensures x.request.end in s.prev ==> found
  {
    hide RelaxedFrom, Settled, Queued, Rooted, Traversable;
    s := State([Entry(0.0, x.request.start)], map[x.request.start := 0.0], map[]);
    rank := map[];
    ghost var low := 0.0;
    InitialState(x);
    while s.queue != []
      invariant Searching(x, s, rank, low)
      invariant rank.Keys <= x.nodes
      decreases x.nodes - rank.Keys, |s.queue|
    {
      var popped, rest := PopMin(s.queue);
      SearchedBounds(x, s, rank, low, popped, rest);
      if popped.node == x.request.end {
        PoppedEndIsOptimal(x, s, rank, low, popped);
        found := true;
        return;
      }
      if popped.cost > s.dist[popped.node] {
        SkippingStale(x, s, rank, low, popped, rest);
        s := s.(queue := rest);
      } else {
        PrevWithinDist(x, s.(queue := rest));
        var t := Relax(x, s.(queue := rest), popped.node, popped.cost);
        Settling(x, s, rank, low, popped, rest, t);
        SettleAddsOne(rank, popped.node);
        SettledWithinNodes(x, t, Settle(rank, popped.node), popped.cost);
        rank := Settle(rank, popped.node);
        s := t;
      }
      low := popped.cost;
    }
    DryMeansUnreachable(x, s, rank, low);
    found := false;
  }

  lemma SettledWithinNodes(x: Problem, s: State, rank: map<string, nat>, low: real)
    requires Searching(x, s, rank, low)
    ensures rank.Keys <= x.nodes
  {
    hide LinkHolds, Relaxed, AllRelaxed, LinksHold, PointsBack, EntriesAbove, AllQueued;
  }

  // ---------------------------------------------------------------------------
  // Reading the path back
  // ---------------------------------------------------------------------------

  function Reversed<T>(s: seq<T>): seq<T> {
    if s == [] then [] else [s[|s| - 1]] + Reversed(s[..|s| - 1])
  }

  lemma ReversedAppend<T>(s: seq<T>, a: T)
    ensures Reversed(s + [a]) == [a] + Reversed(s)
  {
    assert (s + [a])[..|s|] == s;
  }

  function Position(rank: map<string, nat>, v: string): nat { if v in rank then rank[v] else |rank| }

  /** The link of a node on the way back: the arc that reaches it, and a step down in rank. */
  lemma LinkBack(x: Problem, s: State, rank: map<string, nat>, v: string)
    requires Rooted(x, s) && Settled(x, s, rank) && v in s.dist && v != x.request.start
    ensures v in s.prev && LinkHolds(x, s, v) && Position(rank, s.prev[v].node) < Position(rank, v)
  {
    hide LinkHolds, Relaxed;
    assert v in s.prev && LinkHolds(x, s, v) && s.prev[v].node in rank;
  }

  lemma BackOneHop(x: Problem, s: State, v: string, hops: seq<Hop>)
    requires v in s.prev && LinkHolds(x, s, v) && IsPath(x, hops, v, x.request.end)
    ensures var l := s.prev[v];
            && IsPath(x, [Hop(l.node, l.edge)] + hops, l.node, x.request.end)
            && l.node in s.dist
            && PathCost(x, [Hop(l.node, l.edge)] + hops) + s.dist[l.node] == PathCost(x, hops) + s.dist[v]
            && CostFrom(x, l.node, l.edge) == Some(l.cost)
  {
    hide CostFrom, Arc;
    var l := s.prev[v];
    PathPrepend(x, Hop(l.node, l.edge), hops, x.request.end);
  }

  lemma ListsPrepend(h: Hop, hops: seq<Hop>, end: string)
    ensures Ids([h] + hops) == [h.edge.edgeId] + Ids(hops)
    ensures Nodes([h] + hops, end) == [h.node] + Nodes(hops, end)
  {
  }

  lemma CostsPrepend(x: Problem, h: Hop, hops: seq<Hop>, c: EdgeCost, costs: seq<EdgeCost>)
    requires CostsOf(x, hops, costs) && CostFrom(x, h.node, h.edge) == Some(c)
    ensures CostsOf(x, [h] + hops, [c] + costs)
  {
    hide CostFrom;
  }

  /** Follow the links from the destination to the start and turn the lists round. */
  method ReadPath(x: Problem, s: State, ghost rank: map<string, nat>)
    returns (pathNodes: seq<string>, edgeIds: seq<string>, costs: seq<EdgeCost>, ghost hops: seq<Hop>)
    requires Rooted(x, s) && Settled(x, s, rank) && x.request.end in s.dist
    ensures IsPath(x, hops, x.request.start, x.request.end) && PathCost(x, hops) == s.dist[x.request.end]
    ensures edgeIds == Ids(hops) && pathNodes == Nodes(hops, x.request.end) && CostsOf(x, hops, costs)
  {
    hide CostFrom, Arc, Rooted, Settled, LinkHolds, IsPath, PathCost, Ids, Nodes, CostsOf, Reversed;
    var current := x.request.end;
    pathNodes, edgeIds, costs, hops := [current], [], [], [];
    EmptyLists(x, current);
    while current != x.request.start
      invariant current in s.dist && IsPath(x, hops, current, x.request.end)
      invariant PathCost(x, hops) + s.dist[current] == s.dist[x.request.end]
      invariant Reversed(edgeIds) == Ids(hops) && Reversed(pathNodes) == Nodes(hops, x.request.end)
      invariant CostsOf(x, hops, Reversed(costs))
      decreases Position(rank, current)
    {
      LinkBack(x, s, rank, current);
      var link := s.prev[current];
      ghost var h := Hop(link.node, link.edge);
      BackOneHop(x, s, current, hops);
      CostsPrepend(x, h, hops, link.cost, Reversed(costs));
      ReversedAppend(pathNodes, link.node);
      ReversedAppend(edgeIds, link.edge.edgeId);
      ReversedAppend(costs, link.cost);
      pathNodes, edgeIds, costs := pathNodes + [link.node], edgeIds + [link.edge.edgeId], costs + [link.cost];
      ListsPrepend(h, hops, x.request.end);
      hops := [h] + hops;
      current := link.node;
    }
    StartAtZero(x, s);
    pathNodes, edgeIds, costs := Reversed(pathNodes), Reversed(edgeIds), Reversed(costs);
  }

  lemma EmptyLists(x: Problem, end: string)
    ensures IsPath(x, [], end, end) && PathCost(x, []) == 0.0 && CostsOf(x, [], Reversed([]))
    ensures Reversed<string>([]) == Ids([]) && Reversed([end]) == Nodes([], end)
  {
  }

  lemma StartAtZero(x: Problem, s: State)
    requires Rooted(x, s)
    ensures s.dist[x.request.start] == 0.0
  {
  }

  // ---------------------------------------------------------------------------
  // The optimizer
  // ---------------------------------------------------------------------------

  class RouteOptimizer {
    const mineGraph: MineRoadGraph
    const power: Power

    constructor (mineGraph: MineRoadGraph, power: Power)
      ensures this.mineGraph == mineGraph && this.power == power
    {
      this.mineGraph := mineGraph;
      this.power := power;
    }

    /** The routing problem a request poses in the current state of the graph. */
    function ProblemOf(request: Request): Problem
      reads mineGraph
    {
      Problem(mineGraph.network.nodes, mineGraph.adjacency, request, power)
    }

    lemma ProblemIsValid(request: Request)
      requires mineGraph.Valid() && request.Valid()
      ensures ProblemOf(request).Valid()
    {
      var x := ProblemOf(request);
      forall u, e | u in x.out && e in x.out[u] ensures e.Valid() {
        EntryFrom(mineGraph.network, u, e);
      }
    }

    /** A cheapest route, or nothing exactly when no route can be driven. */
    method FindRoute(request: Request) returns (route: Option<NavigationRoute>)
      requires mineGraph.Valid() && request.Valid()
      ensures route.Some? <==> Traversable(ProblemOf(request))
      ensures route.Some? ==> exists hops :: Cheapest(ProblemOf(request), hops) && Reports(ProblemOf(request), hops, route.value)
    {
      hide Settled, Rooted, CostFrom, Arc, Sum;
      var x := ProblemOf(request);
      ProblemIsValid(request);
      if request.start !in x.nodes || request.end !in x.nodes {
        return None;
      }
      var s, found;
      ghost var rank;
      s, rank, found := Search(x);
      if request.end !in s.prev && request.start != request.end {
        FoundHasLink(x, s, rank, found);
        return None;
      }
      var pathNodes, edgeIds, costs;
      ghost var hops;
      pathNodes, edgeIds, costs, hops := ReadPath(x, s, rank);
      PathArcs(x, hops, request.start, request.end);
      SumsAddUp(x, hops, costs);
      var sum := Sum(costs);
      var breakdown := Breakdown(sum.distanceCost, sum.timeCost, sum.payloadCost, sum.conditionCost,
                                 sum.gradientCost, sum.trafficCost, sum.safetyCost, s.dist[request.end]);
      route := Some(NavigationRoute(request.start, request.end, request.payload, pathNodes, edgeIds,
                                    sum.distance, sum.travelTime, breakdown));
      assert Cheapest(x, hops) && Reports(x, hops, route.value);
    }

    /** Whether a closed edge touches the route, and if so the way round it. */
    method CheckDynamicReroute(current: NavigationRoute, closedEdgeId: string, currentNode: string)
      returns (advisory: Option<RerouteAdvisory>)
      requires mineGraph.Valid() && current.payload >= 0.0
      ensures var request := Request(if currentNode in mineGraph.network.nodes then currentNode else current.start,
                                     current.end, current.payload, 85.0, Weights(1.0, 1.0, 10.0, 50.0, 1.0, 0.1, 0.2));
              && (advisory.Some? <==>
                    && (exists k | k in current.edgeIds :: RemoveSuffix(k) == RemoveSuffix(closedEdgeId))
                    && Traversable(ProblemOf(request)))
              && (advisory.Some? ==>
                    && advisory.value.triggerEdgeId == closedEdgeId
                    && advisory.value.newRoute.start == request.start && advisory.value.newRoute.end == current.end
                    && exists hops :: Cheapest(ProblemOf(request), hops) && Reports(ProblemOf(request), hops, advisory.value.newRoute))
              && (advisory.Some? && PlainIds(mineGraph.network) && RemoveSuffix(closedEdgeId) in mineGraph.network.edges
                  && mineGraph.network.edges[RemoveSuffix(closedEdgeId)].status.Closed? ==>
                    forall k | k in advisory.value.newRoute.edgeIds :: RemoveSuffix(k) != RemoveSuffix(closedEdgeId))
    {
      hide Cheapest, Reports, Traversable, RemoveSuffix;
      if !Affects(current, closedEdgeId) {
        return None;
      }
      var request := RerouteRequest(current, currentNode);
      var route := FindRoute(request);
      if route.None? {
        return None;
      }
      advisory := Some(RerouteAdvisory(closedEdgeId, route.value));
      ReportsEnds(ProblemOf(request), route.value);
      if PlainIds(mineGraph.network) && RemoveSuffix(closedEdgeId) in mineGraph.network.edges
         && mineGraph.network.edges[RemoveSuffix(closedEdgeId)].status.Closed? {
        ghost var x := ProblemOf(request);
        ProblemIsValid(request);
        ghost var hops :| Cheapest(x, hops) && Reports(x, hops, route.value);
        RouteAvoidsClosed(mineGraph.network, x, hops, route.value, closedEdgeId);
      }
    }

    predicate Affects(current: NavigationRoute, closedEdgeId: string) {
      exists i | 0 <= i < |current.edgeIds| :: RemoveSuffix(current.edgeIds[i]) == RemoveSuffix(closedEdgeId)
    }

    /** From where the truck is now if that is a node, with default weights and tare. */
    function RerouteRequest(current: NavigationRoute, currentNode: string): Request
      reads mineGraph
    {
      Request(if currentNode in mineGraph.network.nodes then currentNode else current.start,
              current.end, current.payload, 85.0, DEFAULT_WEIGHTS)
    }
  }

  lemma ReportsEnds(x: Problem, r: NavigationRoute)
    requires exists hops :: Cheapest(x, hops) && Reports(x, hops, r)
    ensures r.start == x.request.start && r.end == x.request.end
  {
    hide Cheapest, CostsOf, PathCost;
  }

  lemma FoundHasLink(x: Problem, s: State, rank: map<string, nat>, found: bool)
    requires x.request.end !in s.prev && x.request.start != x.request.end
    requires found ==> Found(x, s, rank)
    ensures !found
  {
    hide Settled;
  }

  // ---------------------------------------------------------------------------
  // Rerouting after a closure
  // ---------------------------------------------------------------------------

  /** No path takes an edge that is closed or too weak for the gross weight, and
      so none takes a closed edge of the network in either direction. */
  lemma PathAvoidsClosed(net: Network, x: Problem, hops: seq<Hop>, a: string, b: string)
    requires PlainIds(net) && IsIndexOf(net, x.out) && x.Valid() && IsPath(x, hops, a, b)
    ensures forall h | h in hops ::
              && !h.edge.status.Closed? && x.request.tare + x.request.payload <= h.edge.maxWeight
              && RemoveSuffix(h.edge.edgeId) in net.edges
              && net.edges[RemoveSuffix(h.edge.edgeId)].status == h.edge.status
  {
    hide CostFrom, RemoveSuffix, IsPath, ListOf;
    PathArcs(x, hops, a, b);
    forall h | h in hops
      ensures !h.edge.status.Closed? && x.request.tare + x.request.payload <= h.edge.maxWeight
      ensures RemoveSuffix(h.edge.edgeId) in net.edges
      ensures net.edges[RemoveSuffix(h.edge.edgeId)].status == h.edge.status
    {
      ArcCostNonNegative(x, h.node, h.edge);
      EntryFrom(net, h.node, h.edge);
      var id :| id in net.edges && IsEntry(net, h.node, h.edge, id);
      EntryHasBase(net, h.node, h.edge, id);
    }
  }

  /** The rerouted path uses neither direction of a closed edge. */
  lemma RouteAvoidsClosed(net: Network, x: Problem, hops: seq<Hop>, r: NavigationRoute, id: string)
    requires PlainIds(net) && IsIndexOf(net, x.out) && x.Valid() && Cheapest(x, hops) && Reports(x, hops, r)
    requires RemoveSuffix(id) in net.edges && net.edges[RemoveSuffix(id)].status.Closed?
    ensures forall k | k in r.edgeIds :: RemoveSuffix(k) != RemoveSuffix(id)
  {
    hide CostFrom, RemoveSuffix, IsPath, PathCost, Reports;
    PathAvoidsClosed(net, x, hops, x.request.start, x.request.end);
    forall k | k in r.edgeIds ensures RemoveSuffix(k) != RemoveSuffix(id) {
      ReportedEdge(x, hops, r, k);
      var h :| h in hops && h.edge.edgeId == k;
      assert net.edges[RemoveSuffix(k)].status == h.edge.status;
    }
  }

  lemma ReportedEdge(x: Problem, hops: seq<Hop>, r: NavigationRoute, k: string)
    requires Reports(x, hops, r) && k in r.edgeIds
    ensures exists h | h in hops :: h.edge.edgeId == k
  {
    hide CostFrom, Sum, PathCost, CostsOf;
    var i :| 0 <= i < |r.edgeIds| && r.edgeIds[i] == k;
    assert hops[i] in hops && hops[i].edge.edgeId == k;
  }
}
