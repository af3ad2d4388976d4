/** Shortest routes: what a route is, and why the search finds a cheapest one.

    The search state and its invariant are values here; `RouteOptimizer.dfy`
    runs the search in place. */
module Routing {
  import opened Options
  import opened MineGraph
  import opened RouteCost

  datatype Request = Request(start: string, end: string, payload: real, tare: real, weights: Weights)
  {
    predicate Valid() { payload >= 0.0 && tare > 0.0 && weights.Valid() }
  }

  /** One routing problem: the nodes, the index at the time of the call and the request. */
  datatype Problem = Problem(nodes: set<string>, out: map<string, seq<MineEdge>>, request: Request, power: Power)
  {
    ghost predicate Valid() {
      request.Valid() && forall u, e | u in out && e in out[u] :: e.Valid()
    }
  }

  function Outgoing(x: Problem, u: string): seq<MineEdge> { if u in x.out then x.out[u] else [] }

  /** Where an edge leads when it is taken from node u, and how steep it is then. */
  function Target(u: string, e: MineEdge): string { if e.fromNode == u then e.toNode else e.fromNode }

  function Gradient(u: string, e: MineEdge): real { if e.fromNode == u then e.gradient else -e.gradient }

  function CostFrom(x: Problem, u: string, e: MineEdge): Option<EdgeCost> {
    CalculateEdgeCost(e, Gradient(u, e), x.request.payload, x.request.tare, x.request.weights, x.power)
  }

  /** Edge e can be taken from u. */
  ghost predicate Arc(x: Problem, u: string, e: MineEdge) {
    e in Outgoing(x, u) && Target(u, e) in x.nodes && CostFrom(x, u, e).Some?
  }

  /** One leg of a path: the node it leaves and the edge it takes. */
  datatype Hop = Hop(node: string, edge: MineEdge)

  ghost predicate IsPath(x: Problem, hops: seq<Hop>, a: string, b: string) {
    if hops == [] then a == b
    else
      var last := hops[|hops| - 1];
      IsPath(x, hops[..|hops| - 1], a, last.node) && Arc(x, last.node, last.edge) && Target(last.node, last.edge) == b
  }

  function HopCost(x: Problem, h: Hop): real {
    match CostFrom(x, h.node, h.edge) case Some(c) => c.total case None => 0.0
  }

  function PathCost(x: Problem, hops: seq<Hop>): real {
    if hops == [] then 0.0 else PathCost(x, hops[..|hops| - 1]) + HopCost(x, hops[|hops| - 1])
  }

  ghost predicate Traversable(x: Problem) {
    && x.request.start in x.nodes && x.request.end in x.nodes
    && exists hops :: IsPath(x, hops, x.request.start, x.request.end)
  }

  lemma ArcCostNonNegative(x: Problem, u: string, e: MineEdge)
    requires x.Valid() && Arc(x, u, e)
    ensures CostFrom(x, u, e).value.NonNegative()
    ensures !e.status.Closed? && x.request.tare + x.request.payload <= e.maxWeight
  {
    hide CalculateEdgeCost;
    EdgeCostTerms(e, Gradient(u, e), x.request.payload, x.request.tare, x.request.weights, x.power);
  }

  lemma PathExtends(x: Problem, hops: seq<Hop>, h: Hop, a: string, b: string)
    ensures IsPath(x, hops + [h], a, b) <==> IsPath(x, hops, a, h.node) && Arc(x, h.node, h.edge) && Target(h.node, h.edge) == b
    ensures PathCost(x, hops + [h]) == PathCost(x, hops) + HopCost(x, h)
  {
    hide HopCost, Arc;
    assert (hops + [h])[..|hops|] == hops;
  }

  lemma {:induction false} PathPrepend(x: Problem, h: Hop, hops: seq<Hop>, b: string)
    requires Arc(x, h.node, h.edge) && IsPath(x, hops, Target(h.node, h.edge), b)
    ensures IsPath(x, [h] + hops, h.node, b)
    ensures PathCost(x, [h] + hops) == HopCost(x, h) + PathCost(x, hops)
  {
    hide HopCost, Arc;
    if hops == [] {
      PathExtends(x, [], h, h.node, b);
      assert [h] + hops == [] + [h];
    } else {
      var init, last := hops[..|hops| - 1], hops[|hops| - 1];
      PathPrepend(x, h, init, last.node);
      PathExtends(x, [h] + init, last, h.node, b);
      assert [h] + hops == ([h] + init) + [last];
    }
  }

  // ---------------------------------------------------------------------------
  // The search state
  // ---------------------------------------------------------------------------

  datatype Entry = Entry(cost: real, node: string)

  datatype Link = Link(node: string, edge: MineEdge, cost: EdgeCost)

  /** `queue` is the heap as a bag of entries, stale ones included. */
  datatype State = State(queue: seq<Entry>, dist: map<string, real>, prev: map<string, Link>)

  /** A link says how its node was reached last: over an arc, at its cost, from a
      node at that distance. */
  ghost predicate LinkHolds(x: Problem, s: State, v: string)
    requires v in s.prev
  {
    var l := s.prev[v];
    && Arc(x, l.node, l.edge) && Target(l.node, l.edge) == v && CostFrom(x, l.node, l.edge) == Some(l.cost)
    && v in s.dist && l.node in s.dist && s.dist[v] == s.dist[l.node] + l.cost.total
  }

  /** Every arc leaving u has been relaxed. */
  ghost predicate Relaxed(x: Problem, s: State, u: string)
    requires u in s.dist
  {
    forall e | Arc(x, u, e) ::
      Target(u, e) in s.dist && s.dist[Target(u, e)] <= s.dist[u] + CostFrom(x, u, e).value.total
  }

  /** `rank` holds the settled nodes in the order they were settled. */
  ghost predicate Settled(x: Problem, s: State, rank: map<string, nat>) {
    && rank.Keys <= s.dist.Keys <= x.nodes
    && AllRelaxed(x, s, rank.Keys) && LinksHold(x, s, rank.Keys) && PointsBack(s, rank)
  }

  ghost predicate AllRelaxed(x: Problem, s: State, settled: set<string>) {
    forall u | u in settled :: u in s.dist && Relaxed(x, s, u)
  }

  ghost predicate LinksHold(x: Problem, s: State, settled: set<string>) {
    forall v | v in s.prev :: LinkHolds(x, s, v) && s.prev[v].node in settled
  }

  ghost predicate PointsBack(s: State, rank: map<string, nat>) {
    && (forall u | u in rank :: rank[u] < |rank|)
    && forall v | v in s.prev && v in rank && s.prev[v].node in rank :: rank[s.prev[v].node] < rank[v]
  }

  /** Nothing in the queue is cheaper than `low` or than its node's distance, and
      every node that is not settled is queued at its distance. */
  ghost predicate Queued(s: State, settled: set<string>, low: real) {
    && (forall u | u in settled && u in s.dist :: s.dist[u] <= low)
    && EntriesAbove(s, low) && AllQueued(s, settled)
  }

  ghost predicate EntriesAbove(s: State, low: real) {
    forall q | q in s.queue :: low <= q.cost && q.node in s.dist && s.dist[q.node] <= q.cost
  }

  ghost predicate AllQueued(s: State, settled: set<string>) {
    forall v | v in s.dist && v !in settled :: Entry(s.dist[v], v) in s.queue
  }

  ghost predicate Rooted(x: Problem, s: State) {
    && x.request.start in s.dist && s.dist[x.request.start] == 0.0
    && s.prev.Keys == s.dist.Keys - {x.request.start}
    && forall v | v in s.dist :: s.dist[v] >= 0.0
  }

  ghost predicate Searching(x: Problem, s: State, rank: map<string, nat>, low: real) {
    && Rooted(x, s) && Settled(x, s, rank) && Queued(s, rank.Keys, low)
    && x.request.end !in rank && low >= 0.0
  }

  // ---------------------------------------------------------------------------
  // Optimality
  // ---------------------------------------------------------------------------

  /** With every unsettled node at distance m or more: a path stays among the
      settled nodes, no shorter than their distances, or costs at least m. */
  lemma {:induction false} PathsCostAtLeast(x: Problem, s: State, rank: map<string, nat>, m: real, hops: seq<Hop>, v: string)
    requires x.Valid() && Rooted(x, s) && Settled(x, s, rank)
    requires forall w | w in s.dist && w !in rank :: m <= s.dist[w]
    requires IsPath(x, hops, x.request.start, v)
    ensures (v in rank && s.dist[v] <= PathCost(x, hops)) || m <= PathCost(x, hops)
  {
    hide CostFrom, LinkHolds;
    if hops != [] {
      var last, init := hops[|hops| - 1], hops[..|hops| - 1];
      PathsCostAtLeast(x, s, rank, m, init, last.node);
      ArcCostNonNegative(x, last.node, last.edge);
      if last.node in rank {
        assert Relaxed(x, s, last.node);
      }
    }
  }

  /** With every known node settled, no path leaves the settled nodes. */
  lemma {:induction false} PathsStaySettled(x: Problem, s: State, rank: map<string, nat>, hops: seq<Hop>, v: string)
    requires Rooted(x, s) && Settled(x, s, rank) && s.dist.Keys == rank.Keys
    requires IsPath(x, hops, x.request.start, v)
    ensures v in rank
  {
    hide CostFrom, LinkHolds;
    if hops != [] {
      var last := hops[|hops| - 1];
      PathsStaySettled(x, s, rank, hops[..|hops| - 1], last.node);
      assert Relaxed(x, s, last.node);
    }
  }

  lemma PathsStaySettledAtStart(x: Problem, s: State, rank: map<string, nat>)
    requires Rooted(x, s) && s.dist.Keys == rank.Keys
    ensures x.request.start in rank
  {
  }

  /** The search ran dry: there is no path. */
  lemma DryMeansUnreachable(x: Problem, s: State, rank: map<string, nat>, low: real)
    requires Searching(x, s, rank, low) && s.queue == []
    ensures !Traversable(x) && x.request.end !in s.prev && x.request.start != x.request.end
  {
    hide CostFrom, LinkHolds, Relaxed;
    assert s.dist.Keys == rank.Keys;
    if hops :| IsPath(x, hops, x.request.start, x.request.end) {
      PathsStaySettled(x, s, rank, hops, x.request.end);
    }
    PathsStaySettledAtStart(x, s, rank);
  }

  /** The destination came off the queue: its distance is what every path costs at least. */
  lemma PoppedEndIsOptimal(x: Problem, s: State, rank: map<string, nat>, low: real, popped: Entry)
    requires x.Valid() && Searching(x, s, rank, low)
    requires popped in s.queue && popped.node == x.request.end
    requires forall q | q in s.queue :: popped.cost <= q.cost
    ensures s.dist[x.request.end] == popped.cost
    ensures forall hops | IsPath(x, hops, x.request.start, x.request.end) :: s.dist[x.request.end] <= PathCost(x, hops)
  {
    hide CostFrom, LinkHolds, Relaxed, PathCost;
    var end := x.request.end;
    forall w | w in s.dist && w !in rank ensures popped.cost <= s.dist[w] {
      assert Entry(s.dist[w], w) in s.queue;
    }
    forall hops | IsPath(x, hops, x.request.start, end) ensures s.dist[end] <= PathCost(x, hops) {
      PathsCostAtLeast(x, s, rank, popped.cost, hops, end);
    }
  }

  // ---------------------------------------------------------------------------
  // One round of the search
  // ---------------------------------------------------------------------------

  /** What relaxing the first `count` arcs of u at `cost` may have changed. */
  ghost predicate RelaxedFrom(x: Problem, s: State, t: State, u: string, cost: real, count: nat) {
    && Lowered(x, s, t) && QueueGrew(s, t, cost) && ChangedByArcs(x, s, t, u, cost)
    && (forall i | 0 <= i < count && i < |Outgoing(x, u)| :: Reached(x, t, u, cost, Outgoing(x, u)[i]))
  }

  ghost predicate Lowered(x: Problem, s: State, t: State) {
    && s.dist.Keys <= t.dist.Keys <= s.dist.Keys + x.nodes && t.prev.Keys <= t.dist.Keys
    && forall v | v in s.dist :: t.dist[v] <= s.dist[v]
  }

  ghost predicate QueueGrew(s: State, t: State, cost: real) {
    && (forall q | q in s.queue :: q in t.queue)
    && (forall q | q in t.queue :: q in s.queue || (cost <= q.cost && q.node in t.dist && t.dist[q.node] <= q.cost))
    && ((forall v | v in t.dist :: Unchanged(s, t, v)) ==> t.queue == s.queue)
  }

  ghost predicate ChangedByArcs(x: Problem, s: State, t: State, u: string, cost: real) {
    forall v | v in t.dist :: Unchanged(s, t, v) || Improved(x, s, t, u, cost, v)
  }

  ghost predicate Unchanged(s: State, t: State, v: string) {
    && v in s.dist && v in t.dist && t.dist[v] == s.dist[v]
    && (v in t.prev <==> v in s.prev) && (v in s.prev ==> t.prev[v] == s.prev[v])
  }

  ghost predicate Improved(x: Problem, s: State, t: State, u: string, cost: real, v: string) {
    && v in t.dist && v in t.prev && (v in s.dist ==> t.dist[v] < s.dist[v])
    && t.prev[v].node == u && Arc(x, u, t.prev[v].edge) && Target(u, t.prev[v].edge) == v
    && CostFrom(x, u, t.prev[v].edge) == Some(t.prev[v].cost) && t.dist[v] == cost + t.prev[v].cost.total
    && Entry(t.dist[v], v) in t.queue
  }

  ghost predicate Reached(x: Problem, t: State, u: string, cost: real, e: MineEdge) {
    Arc(x, u, e) ==> Target(u, e) in t.dist && t.dist[Target(u, e)] <= cost + CostFrom(x, u, e).value.total
  }

  /** Taking a cheapest entry off the queue keeps the search going. */
  ghost predicate PoppedFrom(before: seq<Entry>, popped: Entry, after: seq<Entry>) {
    && popped in before && |after| == |before| - 1
    && (forall q | q in before :: popped.cost <= q.cost && (q == popped || q in after))
    && (forall q | q in after :: q in before)
  }

  /** Ranks and links do not depend on the queue. */
  lemma QueueIsIrrelevant(x: Problem, s: State, rank: map<string, nat>, rest: seq<Entry>)
    requires Settled(x, s, rank)
    ensures Settled(x, s.(queue := rest), rank)
  {
    hide CostFrom, Arc;
    var t := s.(queue := rest);
    forall u | u in rank ensures Relaxed(x, t, u) {
      assert u in s.dist && Relaxed(x, s, u);
    }
    forall v | v in s.prev ensures LinkHolds(x, t, v) {
      assert LinkHolds(x, s, v);
    }
  }

  /** Skipping a stale entry keeps the search going. */
  lemma SkippingStale(x: Problem, s: State, rank: map<string, nat>, low: real, popped: Entry, rest: seq<Entry>)
    requires Searching(x, s, rank, low) && PoppedFrom(s.queue, popped, rest)
    requires popped.cost > s.dist[popped.node]
    ensures Searching(x, s.(queue := rest), rank, popped.cost)
  {
    hide CostFrom, LinkHolds, Relaxed;
    QueueIsIrrelevant(x, s, rank, rest);
  }

  /** The nodes settled after u came off the queue. */
  function Settle(rank: map<string, nat>, u: string): map<string, nat> {
    if u in rank then rank else rank[u := |rank|]
  }

  lemma SettleAddsOne(rank: map<string, nat>, u: string)
    ensures Settle(rank, u).Keys == rank.Keys + {u}
    ensures u !in rank ==> |Settle(rank, u)| == |rank| + 1
  {
    if u !in rank {
      assert Settle(rank, u).Keys == rank.Keys + {u};
      assert |Settle(rank, u).Keys| == |rank.Keys| + 1;
    }
  }

  /** Relaxing from u at its own distance does not touch a settled node, u or the start. */
  lemma SettledStayUnchanged(x: Problem, s: State, rank: map<string, nat>, t: State, u: string, cost: real, v: string)
    requires x.Valid() && Rooted(x, s) && Settled(x, s, rank) && u in s.dist && s.dist[u] == cost
    requires forall w | w in rank :: s.dist[w] <= cost
    requires RelaxedFrom(x, s, t, u, cost, |Outgoing(x, u)|)
    requires v in rank || v == u || v == x.request.start
    ensures Unchanged(s, t, v)
  {
    hide CostFrom, LinkHolds, Relaxed, Arc, QueueGrew, Reached;
    assert v in t.dist;
    if Improved(x, s, t, u, cost, v) {
      ArcCostNonNegative(x, u, t.prev[v].edge);
    }
  }

  lemma ArcIsListed(x: Problem, u: string, e: MineEdge)
    requires Arc(x, u, e)
    ensures exists i | 0 <= i < |Outgoing(x, u)| :: Outgoing(x, u)[i] == e
  {
  }

  lemma PrevHasDistance(x: Problem, s: State, t: State, u: string, cost: real, v: string)
    requires v in t.prev && RelaxedFrom(x, s, t, u, cost, |Outgoing(x, u)|)
    ensures Unchanged(s, t, v) || Improved(x, s, t, u, cost, v)
  {
    hide CostFrom, Arc, Improved, Reached, QueueGrew;
  }

  lemma RelaxedStays(x: Problem, s: State, t: State, w: string)
    requires w in s.dist && Relaxed(x, s, w) && w in t.dist && t.dist[w] == s.dist[w]
    requires s.dist.Keys <= t.dist.Keys && forall v | v in s.dist :: t.dist[v] <= s.dist[v]
    ensures Relaxed(x, t, w)
  {
    hide CostFrom, Arc;
  }

  lemma RelaxedNow(x: Problem, s: State, t: State, u: string, cost: real)
    requires RelaxedFrom(x, s, t, u, cost, |Outgoing(x, u)|) && u in t.dist && t.dist[u] == cost
    ensures Relaxed(x, t, u)
  {
    hide CostFrom, Lowered, QueueGrew, ChangedByArcs;
    forall e | Arc(x, u, e)
      ensures Target(u, e) in t.dist && t.dist[Target(u, e)] <= t.dist[u] + CostFrom(x, u, e).value.total
    {
      ArcIsListed(x, u, e);
      var i :| 0 <= i < |Outgoing(x, u)| && Outgoing(x, u)[i] == e;
      assert Reached(x, t, u, cost, Outgoing(x, u)[i]);
    }
  }

  lemma LinkStays(x: Problem, s: State, t: State, v: string)
    requires v in s.prev && LinkHolds(x, s, v) && Unchanged(s, t, v) && Unchanged(s, t, s.prev[v].node)
    ensures LinkHolds(x, t, v)
  {
    hide CostFrom, Arc;
  }

  lemma LinkMade(x: Problem, s: State, t: State, u: string, cost: real, v: string)
    requires Improved(x, s, t, u, cost, v) && u in t.dist && t.dist[u] == cost
    ensures LinkHolds(x, t, v) && t.prev[v].node == u
  {
    hide CostFrom, Arc;
  }

  lemma SettleRanks(rank: map<string, nat>, u: string)
    requires forall w | w in rank :: rank[w] < |rank|
    ensures var now := Settle(rank, u);
            && now.Keys == rank.Keys + {u}
            && (forall w | w in now :: now[w] < |now|)
            && (forall w | w in rank :: now[w] == rank[w])
            && (u !in rank ==> now[u] == |rank|)
  {
    SettleAddsOne(rank, u);
  }

  lemma SettlingRelaxes(x: Problem, s: State, settled: set<string>, t: State, u: string, cost: real)
    requires u in s.dist && s.dist[u] == cost && RelaxedFrom(x, s, t, u, cost, |Outgoing(x, u)|)
    requires AllRelaxed(x, s, settled)
    requires forall w | w in settled + {u} :: Unchanged(s, t, w)
    ensures AllRelaxed(x, t, settled + {u})
  {
    hide CostFrom, Arc, Relaxed, Improved, Reached, QueueGrew, ChangedByArcs;
    forall w | w in settled + {u} ensures w in t.dist && Relaxed(x, t, w) {
      assert Unchanged(s, t, w);
      if w in settled {
        RelaxedStays(x, s, t, w);
      } else {
        RelaxedNow(x, s, t, u, cost);
      }
    }
  }

  lemma SettlingLinks(x: Problem, s: State, settled: set<string>, t: State, u: string, cost: real)
    requires u in s.dist && s.dist[u] == cost && RelaxedFrom(x, s, t, u, cost, |Outgoing(x, u)|)
    requires LinksHold(x, s, settled)
    requires forall w | w in settled + {u} :: Unchanged(s, t, w)
    ensures LinksHold(x, t, settled + {u})
  {
    hide CostFrom, Arc, LinkHolds, Improved, Reached, QueueGrew, ChangedByArcs;
    assert Unchanged(s, t, u);
    forall v | v in t.prev ensures LinkHolds(x, t, v) && t.prev[v].node in settled + {u} {
      PrevHasDistance(x, s, t, u, cost, v);
      if Unchanged(s, t, v) {
        LinkStays(x, s, t, v);
      } else {
        LinkMade(x, s, t, u, cost, v);
      }
    }
  }

  lemma SettlingPointsBack(x: Problem, s: State, rank: map<string, nat>, t: State, u: string)
    requires PointsBack(s, rank) && LinksHold(x, s, rank.Keys)
    requires forall w | w in rank.Keys + {u} :: Unchanged(s, t, w)
    ensures PointsBack(t, Settle(rank, u))
  {
    hide LinkHolds, Settle;
    SettleRanks(rank, u);
    var now := Settle(rank, u);
    forall v | v in t.prev && v in now && t.prev[v].node in now ensures now[t.prev[v].node] < now[v] {
      assert Unchanged(s, t, v);
      assert LinkHolds(x, s, v);
    }
  }

  /** Settling u after relaxing its arcs: the settled nodes stay in the order they
      were settled, every arc between them is relaxed, every link points back. */
  lemma SettlingKeepsRanks(x: Problem, s: State, rank: map<string, nat>, t: State, u: string, cost: real)
    requires Settled(x, s, rank) && u in s.dist && s.dist[u] == cost
    requires RelaxedFrom(x, s, t, u, cost, |Outgoing(x, u)|)
    requires forall w | w in rank.Keys + {u} :: Unchanged(s, t, w)
    ensures Settled(x, t, Settle(rank, u))
  {
    hide AllRelaxed, LinksHold, PointsBack, Reached, QueueGrew, ChangedByArcs, Settle;
    SettleAddsOne(rank, u);
    SettlingRelaxes(x, s, rank.Keys, t, u, cost);
    SettlingLinks(x, s, rank.Keys, t, u, cost);
    SettlingPointsBack(x, s, rank, t, u);
  }

  lemma SettlingQueues(x: Problem, s: State, settled: set<string>, popped: Entry, rest: seq<Entry>, t: State)
    requires PoppedFrom(s.queue, popped, rest) && AllQueued(s, settled)
    requires RelaxedFrom(x, s.(queue := rest), t, popped.node, popped.cost, |Outgoing(x, popped.node)|)
    ensures AllQueued(t, settled + {popped.node})
  {
    hide CostFrom, Arc, Reached, Lowered;
    forall v | v in t.dist && v !in settled + {popped.node} ensures Entry(t.dist[v], v) in t.queue {
      if Unchanged(s.(queue := rest), t, v) {
        assert Entry(s.dist[v], v) in s.queue;
      }
    }
  }

  lemma SettlingEntries(x: Problem, s: State, low: real, popped: Entry, rest: seq<Entry>, t: State)
    requires PoppedFrom(s.queue, popped, rest) && EntriesAbove(s, low)
    requires RelaxedFrom(x, s.(queue := rest), t, popped.node, popped.cost, |Outgoing(x, popped.node)|)
    ensures EntriesAbove(t, popped.cost)
  {
    hide CostFrom, Arc, Reached, ChangedByArcs, Unchanged;
  }

  lemma SettlingRoots(x: Problem, s: State, t: State, u: string, cost: real)
    requires x.Valid() && Rooted(x, s) && RelaxedFrom(x, s, t, u, cost, |Outgoing(x, u)|) && cost >= 0.0
    requires Unchanged(s, t, x.request.start)
    ensures Rooted(x, t)
  {
    hide CostFrom, Arc, Reached, QueueGrew;
    forall v | v in t.dist ensures t.dist[v] >= 0.0 && (v in t.prev <==> v != x.request.start) {
      if !Unchanged(s, t, v) {
        ArcCostNonNegative(x, u, t.prev[v].edge);
      }
    }
  }

  lemma SettlingUnchanged(
    x: Problem, s: State, rank: map<string, nat>, low: real, popped: Entry, rest: seq<Entry>, t: State)
    requires x.Valid() && Searching(x, s, rank, low) && popped in s.queue && popped.cost <= s.dist[popped.node]
    requires RelaxedFrom(x, s.(queue := rest), t, popped.node, popped.cost, |Outgoing(x, popped.node)|)
    ensures low <= popped.cost == s.dist[popped.node] && Settled(x, s.(queue := rest), rank)
    ensures forall v | v in rank.Keys + {popped.node} || v == x.request.start :: Unchanged(s.(queue := rest), t, v)
  {
    hide LinkHolds, Relaxed, RelaxedFrom, AllRelaxed, LinksHold, PointsBack, EntriesAbove, AllQueued, Unchanged;
    var p := s.(queue := rest);
    PoppedBounds(s, low, popped);
    QueueIsIrrelevant(x, s, rank, rest);
    forall v | v in rank.Keys + {popped.node} || v == x.request.start ensures Unchanged(p, t, v) {
      SettledStayUnchanged(x, p, rank, t, popped.node, popped.cost, v);
    }
  }

  lemma SettlingKeepsQueue(
    x: Problem, s: State, rank: map<string, nat>, low: real, popped: Entry, rest: seq<Entry>, t: State)
    requires Queued(s, rank.Keys, low) && low <= popped.cost && popped.node in s.dist && s.dist[popped.node] == popped.cost
    requires rank.Keys <= s.dist.Keys && PoppedFrom(s.queue, popped, rest)
    requires RelaxedFrom(x, s.(queue := rest), t, popped.node, popped.cost, |Outgoing(x, popped.node)|)
    requires forall v | v in rank.Keys + {popped.node} :: Unchanged(s.(queue := rest), t, v)
    ensures Queued(t, rank.Keys + {popped.node}, popped.cost)
  {
    hide RelaxedFrom, EntriesAbove, AllQueued;
    SettlingQueues(x, s, rank.Keys, popped, rest, t);
    SettlingEntries(x, s, low, popped, rest, t);
  }

  /** Settling a node keeps the search going. */
  lemma Settling(
    x: Problem, s: State, rank: map<string, nat>, low: real, popped: Entry, rest: seq<Entry>, t: State)
    requires x.Valid() && Searching(x, s, rank, low) && PoppedFrom(s.queue, popped, rest)
    requires popped.cost <= s.dist[popped.node] && popped.node != x.request.end
    requires RelaxedFrom(x, s.(queue := rest), t, popped.node, popped.cost, |Outgoing(x, popped.node)|)
    ensures Searching(x, t, Settle(rank, popped.node), popped.cost)
    ensures popped.node in rank ==> t.queue == rest
  {
    hide RelaxedFrom, Settled, Queued, Rooted, Settle, Unchanged;
    var u, p := popped.node, s.(queue := rest);
    SettlingUnchanged(x, s, rank, low, popped, rest, t);
    SettleAddsOne(rank, u);
    SearchedBounds(x, s, rank, low, popped, rest);
    SettlingKeepsRanks(x, p, rank, t, u, popped.cost);
    SettlingRoots(x, p, t, u, popped.cost);
    SettlingKeepsQueue(x, s, rank, low, popped, rest, t);
    if u in rank {
      NothingToRelax(x, p, rank, t, u, popped.cost);
    }
  }

  lemma SearchedBounds(x: Problem, s: State, rank: map<string, nat>, low: real, popped: Entry, rest: seq<Entry>)
    requires Searching(x, s, rank, low) && popped in s.queue
    ensures rank.Keys <= s.dist.Keys && popped.node in s.dist && Rooted(x, s.(queue := rest))
  {
    hide LinkHolds, Relaxed, AllRelaxed, LinksHold, PointsBack, AllQueued;
  }

  lemma PoppedBounds(s: State, low: real, popped: Entry)
    requires EntriesAbove(s, low) && popped in s.queue
    ensures low <= popped.cost && popped.node in s.dist && s.dist[popped.node] <= popped.cost
  {
  }

  lemma NotImproved(x: Problem, s: State, t: State, u: string, cost: real, v: string)
    requires u in s.dist && s.dist[u] == cost && Relaxed(x, s, u)
    ensures !Improved(x, s, t, u, cost, v)
  {
    hide CostFrom, Arc;
  }

  /** A settled node that comes off the queue again changes nothing. */
  lemma NothingToRelax(x: Problem, s: State, rank: map<string, nat>, t: State, u: string, cost: real)
    requires Settled(x, s, rank) && u in rank && s.dist[u] == cost
    requires RelaxedFrom(x, s, t, u, cost, |Outgoing(x, u)|)
    ensures t.queue == s.queue
  {
    hide CostFrom, Arc, LinkHolds, Relaxed, Improved, Reached;
    forall v | v in t.dist ensures Unchanged(s, t, v) {
      NotImproved(x, s, t, u, cost, v);
    }
  }
}
