/** How trucks keep apart on the road: order, following distance, conflict zones. */
module HaulTraffic {
  import opened Options
  import opened HaulModel
  import opened HaulInvariants

  // ---------------------------------------------------------------------------
  // Order and following distance
  // ---------------------------------------------------------------------------

  /** The truck leaves the queue for the loading bay, back at distance 0. */
  predicate Wraps(before: Truck, after: Truck) { before.phase.Queued? && after.phase.Loading? }

  lemma AheadLimits(c: Config, ts: seq<Truck>, i: nat, bays: Bays, j: nat)
    requires i < |ts| && j < |ts| && IsAhead(c, ts, i, j)
    ensures MoveLimit(c, ts, i, bays) <= ts[j].distance - c.queueSpacing
  {
    ConflictLimitShrinks(c, ts, i, TrafficLimit(c, ts, i, bays), |c.groups|);
  }

  /** A step never moves a truck back, except from the queue into the loading bay. */
  lemma StepMovesForward(c: Config, s: Sweep, i: nat, dt: real, cruise: real, stamp: real)
    requires c.Valid() && SweepOk(c, s) && i < |s.trucks| && dt > 0.0 && cruise >= 0.0 && Timed(c, s.trucks[i])
    ensures var t, u := s.trucks[i], StepTruck(c, s, i, dt, cruise, stamp).trucks[i];
            if Wraps(t, u) then u.distance == 0.0 else t.distance <= u.distance
  {
    hide MoveLimit, Reach, LoadShare, DumpShare;
    DistancesBounded(c, s.trucks);
    assert TruckOk(c, s.trucks[i]);
    AdvancedInBounds(c, s.trucks, i, s.bays, dt, cruise);
  }

  /** A truck that moves ends at least the queue spacing behind every truck that was ahead of it. */
  lemma StepKeepsSpacing(c: Config, s: Sweep, i: nat, dt: real, cruise: real, stamp: real, j: nat)
    requires c.Valid() && SweepOk(c, s) && i < |s.trucks| && dt > 0.0 && cruise >= 0.0 && Timed(c, s.trucks[i])
    requires j < |s.trucks| && IsAhead(c, s.trucks, i, j)
    requires s.trucks[i].distance < StepTruck(c, s, i, dt, cruise, stamp).trucks[i].distance
    ensures StepTruck(c, s, i, dt, cruise, stamp).trucks[i].distance <= s.trucks[j].distance - c.queueSpacing
  {
    hide MoveLimit, Reach, LoadShare, DumpShare;
    DistancesBounded(c, s.trucks);
    AdvancedInBounds(c, s.trucks, i, s.bays, dt, cruise);
    AheadLimits(c, s.trucks, i, s.bays, j);
  }

  /** Behind another truck, a moving truck has it in its ahead set or a road end before it. */
  lemma AheadOrRoadEnd(c: Config, ts: seq<Truck>, i: nat, j: nat)
    requires c.Valid() && TrucksOk(c, ts) && i < |ts| && j < |ts| && ts[i].distance < ts[j].distance
    requires ts[i].phase.Queued? || ts[i].phase.Hauling? || ts[i].phase.Returning?
    ensures IsAhead(c, ts, i, j) || RoadEnd(c, ts[i].phase) < ts[j].distance
  {
    hide LoadShare, DumpShare;
    assert TruckOk(c, ts[i]) && TruckOk(c, ts[j]);
  }

  lemma StepKeepsOrder(c: Config, s: Sweep, i: nat, dt: real, cruise: real, stamp: real, a: nat, b: nat)
    requires c.Valid() && SweepOk(c, s) && i < |s.trucks| && dt > 0.0 && cruise >= 0.0 && Timed(c, s.trucks[i])
    requires a < |s.trucks| && b < |s.trucks| && s.trucks[a].distance < s.trucks[b].distance
    requires !Wraps(s.trucks[b], StepTruck(c, s, i, dt, cruise, stamp).trucks[b])
    ensures var r := StepTruck(c, s, i, dt, cruise, stamp); r.trucks[a].distance < r.trucks[b].distance
  {
    hide MoveLimit, Reach, LoadShare, DumpShare;
    var r := StepTruck(c, s, i, dt, cruise, stamp);
    StepPhases(c, s, i, dt, cruise, stamp);
    StepMovesForward(c, s, i, dt, cruise, stamp);
    DistancesBounded(c, s.trucks);
    if i == a && s.trucks[a].distance < r.trucks[a].distance {
      AheadOrRoadEnd(c, s.trucks, a, b);
      AdvancedInBounds(c, s.trucks, a, s.bays, dt, cruise);
      if IsAhead(c, s.trucks, a, b) {
        StepKeepsSpacing(c, s, a, dt, cruise, stamp, b);
      }
    }
  }

  /** A truck is updated once in a tick: what it is after its own step it stays. */
  lemma {:induction false} SweepSettles(c: Config, ts: seq<Truck>, k: nat, m: nat, dt: real, cruise: real, stamp: real, j: nat)
    requires j < k <= m <= |ts| && dt > 0.0 && AllTimed(c, ts)
    ensures SweepTo(c, ts, m, dt, cruise, stamp).trucks[j] == SweepTo(c, ts, k, dt, cruise, stamp).trucks[j]
  {
    hide StepTruck;
    if k < m {
      SweepSettles(c, ts, k, m - 1, dt, cruise, stamp, j);
      StepPhases(c, SweepTo(c, ts, m - 1, dt, cruise, stamp), m - 1, dt, cruise, stamp);
    }
  }

  /** The state in which truck k is updated, and what that update does to it. */
  lemma SweepAt(c: Config, ts: seq<Truck>, k: nat, dt: real, cruise: real, stamp: real)
    requires c.Valid() && k < |ts| && dt > 0.0 && cruise >= 0.0 && AllTimed(c, ts)
    requires TrucksOk(c, ts) && BaysExclusive(ts)
    ensures var s := SweepTo(c, ts, k, dt, cruise, stamp);
            && SweepOk(c, s) && s.trucks[k] == ts[k]
            && SweepTo(c, ts, k + 1, dt, cruise, stamp) == StepTruck(c, s, k, dt, cruise, stamp)
            && StepTruck(c, s, k, dt, cruise, stamp).trucks[k] == SweepTo(c, ts, |ts|, dt, cruise, stamp).trucks[k]
            && forall j | 0 <= j < |ts| && j != k ::
                 s.trucks[j] == SweepTo(c, ts, k + 1, dt, cruise, stamp).trucks[j]
  {
    hide StepTruck;
    SweepKeepsOk(c, ts, k, dt, cruise, stamp);
    SweepSettles(c, ts, k + 1, |ts|, dt, cruise, stamp, k);
    StepPhases(c, SweepTo(c, ts, k, dt, cruise, stamp), k, dt, cruise, stamp);
  }

  lemma {:induction false} SweepKeepsOrder(c: Config, ts: seq<Truck>, k: nat, dt: real, cruise: real, stamp: real, a: nat, b: nat)
    requires c.Valid() && k <= |ts| && dt > 0.0 && cruise >= 0.0 && AllTimed(c, ts)
    requires TrucksOk(c, ts) && BaysExclusive(ts)
    requires a < |ts| && b < |ts| && ts[a].distance < ts[b].distance
    requires !Wraps(ts[b], SweepTo(c, ts, |ts|, dt, cruise, stamp).trucks[b])
    ensures var r := SweepTo(c, ts, k, dt, cruise, stamp); r.trucks[a].distance < r.trucks[b].distance
  {
    hide StepTruck;
    if k > 0 {
      SweepKeepsOrder(c, ts, k - 1, dt, cruise, stamp, a, b);
      SweepAt(c, ts, k - 1, dt, cruise, stamp);
      StepKeepsOrder(c, SweepTo(c, ts, k - 1, dt, cruise, stamp), k - 1, dt, cruise, stamp, a, b);
    }
  }

  /** No overtaking: in a tick a truck strictly behind another stays strictly
      behind it, unless the other one leaves the queue for the loading bay. */
  lemma NoOvertaking(c: Config, f: Fleet, tick: Tick, a: nat, b: nat)
    requires c.Valid() && FleetOk(c, f) && tick.cruise >= 0.0
    requires a < |f.trucks| && b < |f.trucks| && f.trucks[a].distance < f.trucks[b].distance
    requires !Wraps(f.trucks[b], Advance(c, f, tick).0.trucks[b])
    ensures var r := Advance(c, f, tick).0; r.trucks[a].distance < r.trucks[b].distance
  {
    hide StepTruck, SweepTo;
    if tick.Counts() && !tick.emergencyStopped {
      SweepKeepsOrder(c, f.trucks, |f.trucks|, tick.dt, tick.cruise, StampOf(tick, f.elapsed + tick.dt), a, b);
    }
  }

  lemma {:induction false} SweepMovesForward(
    c: Config, ts: seq<Truck>, k: nat, m: nat, dt: real, cruise: real, stamp: real, j: nat)
    requires c.Valid() && k <= m <= |ts| && dt > 0.0 && cruise >= 0.0 && AllTimed(c, ts)
    requires TrucksOk(c, ts) && BaysExclusive(ts)
    requires j < |ts| && !Wraps(ts[j], SweepTo(c, ts, |ts|, dt, cruise, stamp).trucks[j])
    ensures SweepTo(c, ts, k, dt, cruise, stamp).trucks[j].distance <= SweepTo(c, ts, m, dt, cruise, stamp).trucks[j].distance
  {
    hide StepTruck;
    if k < m {
      SweepMovesForward(c, ts, k, m - 1, dt, cruise, stamp, j);
      SweepAt(c, ts, m - 1, dt, cruise, stamp);
      StepMovesForward(c, SweepTo(c, ts, m - 1, dt, cruise, stamp), m - 1, dt, cruise, stamp);
    }
  }

  /** Following distance: a truck that moves in a tick ends it at least the queue
      spacing behind every truck ahead of it when it was updated, as far as that
      one did not leave the queue for the loading bay. */
  lemma FollowingDistance(c: Config, f: Fleet, tick: Tick, a: nat, b: nat)
    requires c.Valid() && FleetOk(c, f) && tick.cruise >= 0.0
    requires tick.Counts() && !tick.emergencyStopped && a < |f.trucks| && b < |f.trucks|
    requires IsAhead(c, SweepTo(c, f.trucks, a, tick.dt, tick.cruise, StampOf(tick, f.elapsed + tick.dt)).trucks, a, b)
    requires f.trucks[a].distance < Advance(c, f, tick).0.trucks[a].distance
    requires !Wraps(f.trucks[b], Advance(c, f, tick).0.trucks[b])
    ensures var r := Advance(c, f, tick).0; r.trucks[a].distance + c.queueSpacing <= r.trucks[b].distance
  {
    hide StepTruck, SweepTo, IsAhead;
    var stamp := StampOf(tick, f.elapsed + tick.dt);
    var s := SweepTo(c, f.trucks, a, tick.dt, tick.cruise, stamp);
    SweepAt(c, f.trucks, a, tick.dt, tick.cruise, stamp);
    StepKeepsSpacing(c, s, a, tick.dt, tick.cruise, stamp, b);
    SweepMovesForward(c, f.trucks, a, |f.trucks|, tick.dt, tick.cruise, stamp, b);
  }

  // ---------------------------------------------------------------------------
  // Conflict zones
  // ---------------------------------------------------------------------------

  /** Each group lists its intervals in road order, the widened intervals apart
      from each other and from the loading bay at distance 0. */
  ghost predicate ZonesLaidOut(c: Config) {
    forall g | 0 <= g < |c.groups| :: GroupLaidOut(c.groups[g])
  }

  ghost predicate GroupLaidOut(group: seq<Interval>) {
    && (forall a | 0 <= a < |group| :: group[a].start - 0.5 > 0.0)
    && (forall a, b | 0 <= a < b < |group| :: group[a].end + 2.0 < group[b].start - 0.5)
  }

  /** No step is long enough to jump over a zone. */
  ghost predicate StepsShort(c: Config, cruise: real, dt: real) {
    forall g, a | 0 <= g < |c.groups| && 0 <= a < |c.groups[g]| ::
      cruise * dt <= c.groups[g][a].end - c.groups[g][a].start + 2.0
  }

  /** No two trucks are in two distinguished widened intervals of one group. With
      intervals held as tuples these are different intervals; held as lists, every
      two intervals count, so a group holds at most one truck at all. */
  ghost predicate ZonesExclusive(c: Config, ts: seq<Truck>) {
    forall g | 0 <= g < |c.groups| :: GroupExclusive(c, c.groups[g], ts)
  }

  ghost predicate GroupExclusive(c: Config, group: seq<Interval>, ts: seq<Truck>) {
    forall a, b, i, j | 0 <= a < |group| && 0 <= b < |group| && 0 <= i < |ts| && 0 <= j < |ts| && i != j ::
      Distinguished(c, group[a], group[b]) && InWidened(group[a], ts[i].distance)
      ==> !InWidened(group[b], ts[j].distance)
  }

  /** The interval being approached starts past d and comes first in road order. */
  lemma {:induction false} ApproachingIsNext(group: seq<Interval>, d: real, b: nat)
    requires GroupLaidOut(group) && b < |group| && d < group[b].start
    ensures Approaching(group, d).Some?
    ensures exists a | 0 <= a <= b :: group[a] == Approaching(group, d).value && d < group[a].start
  {
    if !(d < group[0].start) {
      assert forall a, b | 0 <= a < b < |group[1..]| :: group[1..][a] == group[a + 1] && group[1..][b] == group[b + 1];
      ApproachingIsNext(group[1..], d, b - 1);
      var a :| 0 <= a <= b - 1 && group[1..][a] == Approaching(group[1..], d).value && d < group[1..][a].start;
      assert group[a + 1] == Approaching(group, d).value;
    }
  }

  lemma {:induction false} ConflictLimitCoversGroup(c: Config, ts: seq<Truck>, i: nat, limit: real, count: nat, g: nat)
    requires i < |ts| && count <= |c.groups| && g < count
    requires Approaching(c.groups[g], ts[i].distance).Some?
    requires Blocked(c, ts, i, c.groups[g], Approaching(c.groups[g], ts[i].distance).value)
    ensures ConflictLimit(c, ts, i, limit, count) <= Approaching(c.groups[g], ts[i].distance).value.start - 2.0
  {
    hide Blocked, Approaching;
    if g < count - 1 {
      ConflictLimitCoversGroup(c, ts, i, limit, count - 1, g);
    }
  }

  /** A moving truck does not enter the widened interval b of a group while
      another truck is in an interval a of that group distinguished from b. */
  lemma EntryIsRefused(c: Config, ts: seq<Truck>, i: nat, bays: Bays, dt: real, cruise: real, g: nat, a: nat, b: nat, j: nat)
    requires c.Valid() && ZonesLaidOut(c) && StepsShort(c, cruise, dt)
    requires i < |ts| && j < |ts| && i != j && dt > 0.0 && cruise >= 0.0 && ts[i].plan.Valid()
    requires forall k | 0 <= k < |ts| :: ts[k].distance <= c.total
    requires g < |c.groups| && a < |c.groups[g]| && b < |c.groups[g]|
    requires Distinguished(c, c.groups[g][a], c.groups[g][b]) && InWidened(c.groups[g][a], ts[j].distance)
    requires !InWidened(c.groups[g][b], ts[i].distance)
    ensures !InWidened(c.groups[g][b], Advanced(c, ts, i, bays, dt, cruise).distance)
  {
    var group := c.groups[g];
    var m := Advanced(c, ts, i, bays, dt, cruise);
    ReachBounds(c, ts[i], cruise, dt);
    AdvancedInBounds(c, ts, i, bays, dt, cruise);
    if InWidened(group[b], m.distance) {
      assert ts[i].distance < group[b].start - 0.5;
      ApproachingIsNext(group, ts[i].distance, b);
      var n :| 0 <= n <= b && group[n] == Approaching(group, ts[i].distance).value && ts[i].distance < group[n].start;
      // Were n < b, zone n would have been crossed whole in one step.
      if n == b {
        assert Blocked(c, ts, i, group, group[n]);
        ConflictLimitCoversGroup(c, ts, i, TrafficLimit(c, ts, i, bays), |c.groups|, g);
      }
    }
  }

  /** Where one step can take a truck: where its move takes it, nowhere, or to the loading bay. */
  lemma StepPlaces(c: Config, s: Sweep, i: nat, dt: real, cruise: real, stamp: real)
    requires i < |s.trucks| && dt > 0.0 && Timed(c, s.trucks[i])
    ensures var d := StepTruck(c, s, i, dt, cruise, stamp).trucks[i].distance;
            d == 0.0 || d == s.trucks[i].distance || d == Advanced(c, s.trucks, i, s.bays, dt, cruise).distance
  {
    hide MoveLimit, Reach, LoadShare, DumpShare;
  }

  lemma StepKeepsZones(c: Config, s: Sweep, i: nat, dt: real, cruise: real, stamp: real)
    requires c.Valid() && SweepOk(c, s) && i < |s.trucks| && dt > 0.0 && cruise >= 0.0 && Timed(c, s.trucks[i])
    requires ZonesLaidOut(c) && StepsShort(c, cruise, dt) && ZonesExclusive(c, s.trucks)
    ensures ZonesExclusive(c, StepTruck(c, s, i, dt, cruise, stamp).trucks)
  {
    hide StepTruck, Advanced, InRegion, PayloadOk, TimerOk;
    var r := StepTruck(c, s, i, dt, cruise, stamp);
    StepPhases(c, s, i, dt, cruise, stamp);
    StepPlaces(c, s, i, dt, cruise, stamp);
    DistancesBounded(c, s.trucks);
    assert TruckOk(c, s.trucks[i]);
    forall g, a, b, j | 0 <= g < |c.groups| && 0 <= a < |c.groups[g]| && 0 <= b < |c.groups[g]| && 0 <= j < |s.trucks| && j != i
                        && Distinguished(c, c.groups[g][a], c.groups[g][b]) && InWidened(c.groups[g][a], s.trucks[j].distance)
      ensures !InWidened(c.groups[g][b], r.trucks[i].distance)
    {
      assert GroupLaidOut(c.groups[g]) && GroupExclusive(c, c.groups[g], s.trucks);
      assert !InWidened(c.groups[g][b], s.trucks[i].distance);
      EntryIsRefused(c, s.trucks, i, s.bays, dt, cruise, g, a, b, j);
    }
    forall g | 0 <= g < |c.groups| ensures GroupExclusive(c, c.groups[g], r.trucks) {
      assert GroupExclusive(c, c.groups[g], s.trucks);
    }
  }

  lemma {:induction false} SweepKeepsZones(c: Config, ts: seq<Truck>, k: nat, dt: real, cruise: real, stamp: real)
    requires c.Valid() && k <= |ts| && dt > 0.0 && cruise >= 0.0 && AllTimed(c, ts)
    requires TrucksOk(c, ts) && BaysExclusive(ts)
    requires ZonesLaidOut(c) && StepsShort(c, cruise, dt) && ZonesExclusive(c, ts)
    ensures ZonesExclusive(c, SweepTo(c, ts, k, dt, cruise, stamp).trucks)
  {
    hide StepTruck, ZonesExclusive, StepsShort;
    if k > 0 {
      SweepKeepsZones(c, ts, k - 1, dt, cruise, stamp);
      SweepAt(c, ts, k - 1, dt, cruise, stamp);
      StepKeepsZones(c, SweepTo(c, ts, k - 1, dt, cruise, stamp), k - 1, dt, cruise, stamp);
    }
  }

  lemma AdvanceKeepsZones(c: Config, f: Fleet, tick: Tick)
    requires c.Valid() && FleetOk(c, f) && tick.cruise >= 0.0
    requires ZonesLaidOut(c) && StepsShort(c, tick.cruise, tick.dt) && ZonesExclusive(c, f.trucks)
    ensures ZonesExclusive(c, Advance(c, f, tick).0.trucks)
  {
    hide StepTruck, SweepTo, StepsShort, GroupLaidOut;
    var r := Advance(c, f, tick).0;
    if tick.Counts() && !tick.emergencyStopped {
      SweepKeepsZones(c, f.trucks, |f.trucks|, tick.dt, tick.cruise, StampOf(tick, f.elapsed + tick.dt));
    } else {
      forall g | 0 <= g < |c.groups| ensures GroupExclusive(c, c.groups[g], r.trucks) {
        assert GroupExclusive(c, c.groups[g], f.trucks);
        assert forall j | 0 <= j < |r.trucks| :: r.trucks[j].distance == f.trucks[j].distance;
      }
    }
  }

  /** Conflict-zone exclusion in every reachable state, for both readings of the configuration. */
  lemma {:induction false} ZonesStayExclusive(c: Config, numbers: seq<int>, ticks: seq<Tick>)
    requires c.Valid() && QueueFits(c, |numbers|) && DrivesForward(ticks)
    requires ZonesLaidOut(c) && forall k | 0 <= k < |ticks| :: StepsShort(c, ticks[k].cruise, ticks[k].dt)
    requires ZonesExclusive(c, StartingFleet(c, numbers).trucks)
    ensures ZonesExclusive(c, Run(c, numbers, ticks).0.trucks)
  {
    hide ZonesExclusive, StepsShort, ZonesLaidOut, Advance, StartingFleet;
    if ticks != [] {
      var last := |ticks| - 1;
      ZonesStayExclusive(c, numbers, ticks[..last]);
      AdvanceKeepsZones(c, Run(c, numbers, ticks[..last]).0, ticks[last]);
    }
  }

  /** Read off for two trucks: in different intervals of a group never both at
      once, and with intervals held as lists never both in the group at all. */
  lemma ZoneHoldsNoOpposingTrucks(
    c: Config, numbers: seq<int>, ticks: seq<Tick>, g: nat, a: nat, b: nat, i: nat, j: nat)
    requires c.Valid() && QueueFits(c, |numbers|) && DrivesForward(ticks)
    requires ZonesLaidOut(c) && forall k | 0 <= k < |ticks| :: StepsShort(c, ticks[k].cruise, ticks[k].dt)
    requires ZonesExclusive(c, StartingFleet(c, numbers).trucks)
    requires i < |numbers| && j < |numbers| && i != j
    requires g < |c.groups| && a < |c.groups[g]| && b < |c.groups[g]|
    ensures var ts := Run(c, numbers, ticks).0.trucks;
            InWidened(c.groups[g][a], ts[i].distance) && InWidened(c.groups[g][b], ts[j].distance)
            ==> a == b && !c.listIntervals
  {
    hide Run, StepsShort, StartingFleet, InWidened;
    ZonesStayExclusive(c, numbers, ticks);
    assert GroupExclusive(c, c.groups[g], Run(c, numbers, ticks).0.trucks);
    if a != b {
      assert GroupLaidOut(c.groups[g]);
      ZonesDiffer(c.groups[g], a, b);
    }
  }

  lemma ZonesDiffer(group: seq<Interval>, a: nat, b: nat)
    requires GroupLaidOut(group) && a < |group| && b < |group| && a != b
    ensures group[a] != group[b] || forall d :: !InWidened(group[a], d)
  {
    var low, high := if a < b then a else b, if a < b then b else a;
    assert group[low].end + 2.0 < group[high].start - 0.5;
  }
}
