/** What every truck step, every tick and every run of the haul fleet keeps:
    each phase in its stretch of road, the load on the bed, one truck per bay. */
module HaulInvariants {
  import opened Options
  import opened HaulModel

  // ---------------------------------------------------------------------------
  // One truck
  // ---------------------------------------------------------------------------

  ghost predicate InRegion(c: Config, t: Truck) {
    match t.phase
    case Queued => c.dump <= t.distance <= c.total
    case Loading => t.distance == 0.0
    case Hauling => 0.0 <= t.distance <= c.dump
    case Returning => 0.0 <= t.distance && c.dump - TOL <= t.distance <= c.total
    case _ => 0.0 <= t.distance && c.dump - TOL <= t.distance <= c.dump
  }

  ghost predicate TimerOk(c: Config, t: Truck) {
    match t.phase
    case Queued | Hauling | Returning => t.timer == 0.0
    case _ => 0.0 <= t.timer < Duration(c, t.plan, t.phase)
  }

  ghost predicate PayloadOk(c: Config, t: Truck)
    requires t.plan.Valid() && c.Valid()
  {
    TimedWhenValid(c, t);
    match t.phase
    case Loading => t.payload == t.plan.payloadFraction * LoadShare(t.timer, Duration(c, t.plan, Loading))
    case Hauling | Reversing => t.payload == t.plan.payloadFraction
    case Dumping => t.payload == t.plan.payloadFraction * DumpShare(t.timer, Duration(c, t.plan, Dumping))
    case _ => t.payload == 0.0
  }

  ghost predicate TruckOk(c: Config, t: Truck)
    requires c.Valid()
  {
    t.plan.Valid() && InRegion(c, t) && TimerOk(c, t) && PayloadOk(c, t)
  }

  lemma TimedWhenValid(c: Config, t: Truck)
    requires t.plan.Valid() && c.Valid()
    ensures Timed(c, t)
  {
    assert c.loadingS * t.plan.loadingScale > 0.0;
    assert c.dumpingS * t.plan.dumpingScale > 0.0;
  }

  /** Everything but speed and ledger decides whether a truck is in order. */
  lemma SameTask(c: Config, t: Truck, u: Truck)
    requires c.Valid() && TruckOk(c, t)
    requires u == t.(speed := u.speed, accounting := u.accounting)
    ensures TruckOk(c, u)
  {
    hide LoadShare, DumpShare;
    TimedWhenValid(c, u);
  }

  lemma QuotientAtLeastOne(a: real, b: real)
    requires 0.0 < b <= a
    ensures a / b >= 1.0
  {
    assert a / b * b == a;
  }

  lemma ShareEnds(timer: real, duration: real)
    requires timer >= 0.0 && duration > 0.0
    ensures timer == 0.0 ==> LoadShare(timer, duration) == 0.0 && DumpShare(timer, duration) == 1.0
    ensures timer >= duration ==> LoadShare(timer, duration) == 1.0 && DumpShare(timer, duration) == 0.0
    ensures 0.0 <= LoadShare(timer, duration) <= 1.0 && 0.0 <= DumpShare(timer, duration) <= 1.0
  {
    if timer >= duration {
      QuotientAtLeastOne(timer, duration);
    }
    assert timer / duration >= 0.0;
  }

  lemma ReachPositive(c: Config, t: Truck, cruise: real, dt: real)
    requires c.Valid() && t.plan.Valid() && cruise > 0.0 && dt > 0.0
    ensures 0.0 < Reach(c, t, cruise, dt)
  {
    assert cruise * t.plan.speedScale > 0.0;
  }

  lemma ReachBounds(c: Config, t: Truck, cruise: real, dt: real)
    requires c.Valid() && t.plan.Valid() && cruise >= 0.0 && dt > 0.0
    ensures 0.0 <= Reach(c, t, cruise, dt) <= cruise * dt
  {
    var planned := cruise * t.plan.speedScale;
    assert 0.0 <= planned <= cruise;
    var allowed := match c.turnCap(t.distance) case None => planned case Some(cap) => Min(planned, cap);
    assert 0.0 <= allowed <= cruise;
    assert 0.0 <= allowed * dt <= cruise * dt;
  }

  /** The limit never lies beyond the end of the truck's road. */
  lemma LimitWithinRoad(c: Config, ts: seq<Truck>, i: nat, bays: Bays)
    requires c.Valid() && i < |ts|
    requires forall j | 0 <= j < |ts| :: ts[j].distance <= c.total
    ensures MoveLimit(c, ts, i, bays) <= RoadEnd(c, ts[i].phase)
  {
    ConflictLimitShrinks(c, ts, i, TrafficLimit(c, ts, i, bays), |c.groups|);
  }

  lemma {:induction false} ConflictLimitShrinks(c: Config, ts: seq<Truck>, i: nat, limit: real, count: nat)
    requires i < |ts| && count <= |c.groups|
    ensures ConflictLimit(c, ts, i, limit, count) <= limit
  {
    if count > 0 {
      ConflictLimitShrinks(c, ts, i, limit, count - 1);
    }
  }

  lemma AdvancedInBounds(c: Config, ts: seq<Truck>, i: nat, bays: Bays, dt: real, cruise: real)
    requires c.Valid() && i < |ts| && dt > 0.0 && cruise >= 0.0 && ts[i].plan.Valid()
    requires forall j | 0 <= j < |ts| :: ts[j].distance <= c.total
    ensures var m := Advanced(c, ts, i, bays, dt, cruise);
            && ts[i].distance <= m.distance <= Max(ts[i].distance, RoadEnd(c, ts[i].phase))
            && (m.distance > ts[i].distance ==> m.distance <= MoveLimit(c, ts, i, bays))
  {
    ReachBounds(c, ts[i], cruise, dt);
    LimitWithinRoad(c, ts, i, bays);
  }

  lemma LoadedOk(c: Config, t: Truck, dt: real)
    requires c.Valid() && dt > 0.0 && TruckOk(c, t) && t.phase.Loading?
    requires Timed(c, t)
    ensures TruckOk(c, Loaded(c, t, dt))
  {
    hide LoadShare, DumpShare;
    ShareEnds(t.timer + dt, Duration(c, t.plan, Loading));
  }

  lemma TippedOk(c: Config, t: Truck, dt: real)
    requires c.Valid() && dt > 0.0 && TruckOk(c, t) && AtTip(t.phase)
    requires Timed(c, t)
    ensures TruckOk(c, Tipped(c, t, dt))
  {
    hide LoadShare, DumpShare;
    var full := Duration(c, t.plan, t.phase);
    ShareEnds(t.timer + dt, full);
    ShareEnds(0.0, Duration(c, t.plan, Dumping));
    var u := Tipped(c, t, dt);
    assert Duration(c, u.plan, Dumping) == Duration(c, t.plan, Dumping);
    match t.phase
    case Reversing =>
      assert u.payload == t.plan.payloadFraction;
      assert u.phase.Reversing? || u.payload == t.plan.payloadFraction * DumpShare(u.timer, Duration(c, u.plan, Dumping));
    case Dumping =>
      assert u.phase.Dumping? || u.payload == 0.0;
    case Lowering =>
    case Exiting =>
  }

  // ---------------------------------------------------------------------------
  // The fleet
  // ---------------------------------------------------------------------------

  ghost predicate TrucksOk(c: Config, ts: seq<Truck>)
    requires c.Valid()
  {
    forall i | 0 <= i < |ts| :: TruckOk(c, ts[i])
  }

  /** At most one truck is in the loading bay and at most one in the tipping bay. */
  ghost predicate BaysExclusive(ts: seq<Truck>) {
    && (forall i, j | 0 <= i < j < |ts| :: !(ts[i].phase.Loading? && ts[j].phase.Loading?))
    && (forall i, j | 0 <= i < j < |ts| :: !(AtTip(ts[i].phase) && AtTip(ts[j].phase)))
  }

  /** A bay that is not spoken for is empty. The converse fails on purpose: a bay
      left during the tick stays spoken for until the next one. */
  ghost predicate BaysCover(ts: seq<Truck>, bays: Bays) {
    && (SomeLoading(ts) ==> bays.loading)
    && (SomeTipping(ts) ==> bays.tipping)
  }

  ghost predicate SweepOk(c: Config, s: Sweep)
    requires c.Valid()
  {
    TrucksOk(c, s.trucks) && BaysExclusive(s.trucks) && BaysCover(s.trucks, s.bays)
  }

  lemma AllTimedWhenOk(c: Config, ts: seq<Truck>)
    requires c.Valid() && TrucksOk(c, ts)
    ensures AllTimed(c, ts)
  {
    forall i | 0 <= i < |ts| ensures Timed(c, ts[i]) {
      TimedWhenValid(c, ts[i]);
    }
  }

  lemma DistancesBounded(c: Config, ts: seq<Truck>)
    requires c.Valid() && TrucksOk(c, ts)
    ensures forall j | 0 <= j < |ts| :: 0.0 <= ts[j].distance <= c.total
  {
    forall j | 0 <= j < |ts| ensures 0.0 <= ts[j].distance <= c.total {
      assert TruckOk(c, ts[j]);
    }
  }

  /** The stepped truck itself stays within its region, timer and load. */
  lemma StepKeepsTruck(c: Config, s: Sweep, i: nat, dt: real, cruise: real, stamp: real)
    requires c.Valid() && i < |s.trucks| && dt > 0.0 && cruise >= 0.0 && TrucksOk(c, s.trucks)
    requires Timed(c, s.trucks[i])
    ensures TruckOk(c, StepTruck(c, s, i, dt, cruise, stamp).trucks[i])
  {
    hide MoveLimit, Reach, LoadShare, DumpShare, Loaded, Tipped;
    var t := s.trucks[i];
    assert TruckOk(c, t);
    DistancesBounded(c, s.trucks);
    match t.phase
    case Loading => LoadedOk(c, t, dt);
    case Queued | Hauling | Returning =>
      AdvancedInBounds(c, s.trucks, i, s.bays, dt, cruise);
      TimedWhenValid(c, t);
      ShareEnds(0.0, Duration(c, t.plan, Loading));
      assert c.plans(i, t.tripNumber + 1).Valid();
    case _ => TippedOk(c, t, dt);
  }

  /** Which phases one step can lead to, and that only a free bay is entered. */
  lemma StepPhases(c: Config, s: Sweep, i: nat, dt: real, cruise: real, stamp: real)
    requires i < |s.trucks| && dt > 0.0 && Timed(c, s.trucks[i])
    ensures var r := StepTruck(c, s, i, dt, cruise, stamp);
            && (r.trucks[i].phase.Loading? ==> s.trucks[i].phase.Loading? || (!s.bays.loading && r.bays.loading))
            && (AtTip(r.trucks[i].phase) ==> AtTip(s.trucks[i].phase) || (!s.bays.tipping && r.bays.tipping))
            && (s.bays.loading ==> r.bays.loading) && (s.bays.tipping ==> r.bays.tipping)
            && forall j | 0 <= j < |s.trucks| && j != i :: r.trucks[j] == s.trucks[j]
  {
  }

  lemma StepKeepsBays(c: Config, s: Sweep, i: nat, dt: real, cruise: real, stamp: real)
    requires c.Valid() && i < |s.trucks| && dt > 0.0 && cruise >= 0.0
    requires BaysExclusive(s.trucks) && BaysCover(s.trucks, s.bays) && Timed(c, s.trucks[i])
    ensures var r := StepTruck(c, s, i, dt, cruise, stamp); BaysExclusive(r.trucks) && BaysCover(r.trucks, r.bays)
  {
    StepPhases(c, s, i, dt, cruise, stamp);
    var r := StepTruck(c, s, i, dt, cruise, stamp);
    if !s.bays.loading {
      assert forall j | 0 <= j < |s.trucks| :: !s.trucks[j].phase.Loading?;
    }
    if !s.bays.tipping {
      assert forall j | 0 <= j < |s.trucks| :: !AtTip(s.trucks[j].phase);
    }
    forall a, b | 0 <= a < b < |r.trucks|
      ensures !(r.trucks[a].phase.Loading? && r.trucks[b].phase.Loading?)
      ensures !(AtTip(r.trucks[a].phase) && AtTip(r.trucks[b].phase))
    {
    }
  }

  lemma StepKeepsSweepOk(c: Config, s: Sweep, i: nat, dt: real, cruise: real, stamp: real)
    requires c.Valid() && i < |s.trucks| && dt > 0.0 && cruise >= 0.0 && SweepOk(c, s) && Timed(c, s.trucks[i])
    ensures SweepOk(c, StepTruck(c, s, i, dt, cruise, stamp))
  {
    StepKeepsTruck(c, s, i, dt, cruise, stamp);
    StepKeepsBays(c, s, i, dt, cruise, stamp);
    StepPhases(c, s, i, dt, cruise, stamp);
  }

  lemma {:induction false} SweepKeepsOk(c: Config, ts: seq<Truck>, k: nat, dt: real, cruise: real, stamp: real)
    requires c.Valid() && k <= |ts| && dt > 0.0 && cruise >= 0.0 && AllTimed(c, ts)
    requires TrucksOk(c, ts) && BaysExclusive(ts)
    ensures SweepOk(c, SweepTo(c, ts, k, dt, cruise, stamp))
  {
    hide StepTruck;
    if k > 0 {
      SweepKeepsOk(c, ts, k - 1, dt, cruise, stamp);
      StepKeepsSweepOk(c, SweepTo(c, ts, k - 1, dt, cruise, stamp), k - 1, dt, cruise, stamp);
    }
  }

  ghost predicate FleetOk(c: Config, f: Fleet)
    requires c.Valid()
  {
    TrucksOk(c, f.trucks) && BaysExclusive(f.trucks) && AllTimed(c, f.trucks)
  }

  lemma AdvanceKeepsOk(c: Config, f: Fleet, tick: Tick)
    requires c.Valid() && FleetOk(c, f) && tick.cruise >= 0.0
    ensures FleetOk(c, Advance(c, f, tick).0)
  {
    hide StepTruck, SweepTo;
    var r := Advance(c, f, tick).0;
    if tick.Counts() && !tick.emergencyStopped {
      SweepKeepsOk(c, f.trucks, |f.trucks|, tick.dt, tick.cruise, StampOf(tick, f.elapsed + tick.dt));
    } else {
      forall i | 0 <= i < |r.trucks| ensures TruckOk(c, r.trucks[i]) {
        hide TruckOk;
        assert TruckOk(c, f.trucks[i]);
        SameTask(c, f.trucks[i], r.trucks[i]);
      }
    }
    AllTimedWhenOk(c, r.trucks);
  }

  // ---------------------------------------------------------------------------
  // Runs
  // ---------------------------------------------------------------------------

  ghost predicate DrivesForward(ticks: seq<Tick>) {
    forall k | 0 <= k < |ticks| :: ticks[k].cruise >= 0.0
  }

  /** The whole queue fits on the road behind the tip. */
  ghost predicate QueueFits(c: Config, n: nat) {
    n > 0 ==> c.dump <= c.total - (n - 1) as real * c.queueSpacing
  }

  /** The fleet and all completed trips after the ticks, started on the given trip numbers. */
  ghost function Run(c: Config, numbers: seq<int>, ticks: seq<Tick>): (r: (Fleet, seq<Trip>))
    requires c.Valid() && QueueFits(c, |numbers|) && DrivesForward(ticks)
    ensures FleetOk(c, r.0) && |r.0.trucks| == |numbers|
  {
    if ticks == [] then
      StartingFleetOk(c, numbers);
      (StartingFleet(c, numbers), [])
    else
      var last := |ticks| - 1;
      var before := Run(c, numbers, ticks[..last]);
      AdvanceKeepsOk(c, before.0, ticks[last]);
      var after := Advance(c, before.0, ticks[last]);
      (after.0, before.1 + after.1)
  }

  lemma QueuePosition(c: Config, n: nat, i: nat)
    requires c.Valid() && QueueFits(c, n) && i < n
    ensures c.dump <= c.total - i as real * c.queueSpacing <= c.total
  {
    assert 0.0 <= i as real * c.queueSpacing <= (n - 1) as real * c.queueSpacing;
  }

  lemma StartingFleetOk(c: Config, numbers: seq<int>)
    requires c.Valid() && QueueFits(c, |numbers|)
    ensures FleetOk(c, StartingFleet(c, numbers))
  {
    var ts := StartingFleet(c, numbers).trucks;
    forall i: nat | i < |ts| ensures TruckOk(c, ts[i]) {
      QueuePosition(c, |ts|, i);
      assert c.plans(i, numbers[i]).Valid();
    }
    AllTimedWhenOk(c, ts);
  }

  /** In every reachable state each bay holds at most one truck. */
  lemma BaysAreExclusive(c: Config, numbers: seq<int>, ticks: seq<Tick>, i: nat, j: nat)
    requires c.Valid() && QueueFits(c, |numbers|) && DrivesForward(ticks) && i < |numbers| && j < |numbers|
    ensures var ts := Run(c, numbers, ticks).0.trucks;
            && (ts[i].phase.Loading? && ts[j].phase.Loading? ==> i == j)
            && (AtTip(ts[i].phase) && AtTip(ts[j].phase) ==> i == j)
  {
    var ts := Run(c, numbers, ticks).0.trucks;
    assert BaysExclusive(ts);
  }

  /** In every reachable state the load is what the plan and the phase say, and
      the truck is on its phase's stretch of road. */
  lemma LoadFollowsPhase(c: Config, numbers: seq<int>, ticks: seq<Tick>, i: nat)
    requires c.Valid() && QueueFits(c, |numbers|) && DrivesForward(ticks) && i < |numbers|
    ensures var t := Run(c, numbers, ticks).0.trucks[i];
            && (t.phase.Hauling? || t.phase.Reversing? ==> t.payload == t.plan.payloadFraction)
            && (t.phase.Lowering? || t.phase.Exiting? || t.phase.Returning? || t.phase.Queued? ==> t.payload == 0.0)
            && 0.0 <= t.payload <= t.plan.payloadFraction
            && InRegion(c, t)
  {
    hide Run, PayloadOk, InRegion;
    LoadBounded(c, Run(c, numbers, ticks).0.trucks[i]);
  }

  lemma LoadBounded(c: Config, t: Truck)
    requires c.Valid() && TruckOk(c, t)
    ensures t.phase.Hauling? || t.phase.Reversing? ==> t.payload == t.plan.payloadFraction
    ensures t.phase.Lowering? || t.phase.Exiting? || t.phase.Returning? || t.phase.Queued? ==> t.payload == 0.0
    ensures 0.0 <= t.payload <= t.plan.payloadFraction
    ensures InRegion(c, t)
  {
    hide LoadShare, DumpShare;
    TimedWhenValid(c, t);
    match t.phase
    case Loading =>
      ShareEnds(t.timer, Duration(c, t.plan, Loading));
      ShareBounded(t.plan.payloadFraction, LoadShare(t.timer, Duration(c, t.plan, Loading)), t.payload);
    case Dumping =>
      ShareEnds(t.timer, Duration(c, t.plan, Dumping));
      ShareBounded(t.plan.payloadFraction, DumpShare(t.timer, Duration(c, t.plan, Dumping)), t.payload);
    case _ =>
  }

  lemma ShareBounded(a: real, share: real, product: real)
    requires a >= 0.0 && 0.0 <= share <= 1.0 && product == a * share
    ensures 0.0 <= product <= a
  {
  }
}
