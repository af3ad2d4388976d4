/** Deadlock freedom: without conflict zones every running tick takes some truck
    further in its cycle and takes none back. */
module HaulProgress {
  import opened HaulModel
  import opened HaulInvariants
  import opened HaulTraffic

  function Rank(p: Phase): nat {
    match p
    case Queued => 0
    case Loading => 1
    case Hauling => 2
    case Reversing => 3
    case Dumping => 4
    case Lowering => 5
    case Exiting => 6
    case Returning => 7
  }

  /** (cycle, phase, distance, timer), compared lexicographically. */
  predicate Further(t: Truck, u: Truck) {
    || u.cycle > t.cycle
    || (u.cycle == t.cycle && Rank(u.phase) > Rank(t.phase))
    || (u.cycle == t.cycle && u.phase == t.phase && u.distance > t.distance)
    || (u.cycle == t.cycle && u.phase == t.phase && u.distance == t.distance && u.timer > t.timer)
  }

  predicate SamePlace(t: Truck, u: Truck) {
    u.cycle == t.cycle && u.phase == t.phase && u.distance == t.distance && u.timer == t.timer
  }

  predicate InService(t: Truck) { t.phase.Loading? || AtTip(t.phase) }

  lemma RankDecides(p: Phase, q: Phase)
    requires Rank(p) == Rank(q)
    ensures p == q
  {
  }

  /** The step of a truck takes it further or leaves it where it is; in service it always goes on. */
  lemma StepNeverGoesBack(c: Config, s: Sweep, i: nat, dt: real, cruise: real, stamp: real)
    requires c.Valid() && SweepOk(c, s) && i < |s.trucks| && dt > 0.0 && cruise >= 0.0 && Timed(c, s.trucks[i])
    ensures var t, u := s.trucks[i], StepTruck(c, s, i, dt, cruise, stamp).trucks[i];
            (SamePlace(t, u) && !InService(t)) || Further(t, u)
  {
    hide MoveLimit, Reach, LoadShare, DumpShare, Duration;
    DistancesBounded(c, s.trucks);
    assert TruckOk(c, s.trucks[i]);
    AdvancedInBounds(c, s.trucks, i, s.bays, dt, cruise);
  }

  /** A step that leaves its truck in place leaves the bays as they were. */
  lemma StillStepKeepsBays(c: Config, s: Sweep, i: nat, dt: real, cruise: real, stamp: real)
    requires i < |s.trucks| && dt > 0.0 && Timed(c, s.trucks[i])
    requires SamePlace(s.trucks[i], StepTruck(c, s, i, dt, cruise, stamp).trucks[i])
    ensures StepTruck(c, s, i, dt, cruise, stamp).bays == s.bays
  {
    hide MoveLimit, Reach, LoadShare, DumpShare, Duration;
  }

  /** With both bays free the truck furthest along the road goes on. */
  lemma LeaderGoesOn(c: Config, s: Sweep, i: nat, dt: real, cruise: real, stamp: real)
    requires c.Valid() && c.groups == [] && SweepOk(c, s) && i < |s.trucks| && dt > 0.0 && cruise > 0.0
    requires Timed(c, s.trucks[i]) && !s.bays.loading && !s.bays.tipping
    requires forall j | 0 <= j < |s.trucks| :: s.trucks[j].distance <= s.trucks[i].distance
    ensures Further(s.trucks[i], StepTruck(c, s, i, dt, cruise, stamp).trucks[i])
  {
    hide Reach, LoadShare, DumpShare, Duration;
    var t := s.trucks[i];
    assert TruckOk(c, t);
    StepNeverGoesBack(c, s, i, dt, cruise, stamp);
    if !InService(t) {
      assert MoveLimit(c, s.trucks, i, s.bays) == RoadEnd(c, t.phase);
      ReachPositive(c, t, cruise, dt);
      var m := Advanced(c, s.trucks, i, s.bays, dt, cruise);
      assert m.distance > t.distance || t.distance >= RoadEnd(c, t.phase);
    }
  }

  /** As long as no truck has gone on, the tick has changed no place and taken no bay. */
  lemma {:induction false} SweepGoesOnOrStays(c: Config, ts: seq<Truck>, k: nat, dt: real, cruise: real, stamp: real)
    requires c.Valid() && k <= |ts| && dt > 0.0 && cruise >= 0.0 && AllTimed(c, ts)
    requires TrucksOk(c, ts) && BaysExclusive(ts)
    ensures var s := SweepTo(c, ts, k, dt, cruise, stamp);
            && (forall j | 0 <= j < k :: Further(ts[j], s.trucks[j]) || (SamePlace(ts[j], s.trucks[j]) && !InService(ts[j])))
            && ((exists j | 0 <= j < k :: Further(ts[j], s.trucks[j])) || s.bays == BaysAt(ts))
  {
    hide StepTruck, Further, SamePlace, TruckOk, Timed, BaysAt;
    if k > 0 {
      SweepGoesOnOrStays(c, ts, k - 1, dt, cruise, stamp);
      SweepAt(c, ts, k - 1, dt, cruise, stamp);
      var s := SweepTo(c, ts, k - 1, dt, cruise, stamp);
      StepNeverGoesBack(c, s, k - 1, dt, cruise, stamp);
      StepPhases(c, s, k - 1, dt, cruise, stamp);
      var r := StepTruck(c, s, k - 1, dt, cruise, stamp);
      if exists j | 0 <= j < k - 1 :: Further(ts[j], s.trucks[j]) {
        var j :| 0 <= j < k - 1 && Further(ts[j], s.trucks[j]);
        assert Further(ts[j], r.trucks[j]);
      } else if !Further(ts[k - 1], r.trucks[k - 1]) {
        StillStepKeepsBays(c, s, k - 1, dt, cruise, stamp);
      }
    }
  }

  lemma FurthestTruck(ts: seq<Truck>) returns (i: nat)
    requires ts != []
    ensures i < |ts| && forall j | 0 <= j < |ts| :: ts[j].distance <= ts[i].distance
  {
    if |ts| == 1 {
      i := 0;
    } else {
      var k := FurthestTruck(ts[..|ts| - 1]);
      assert forall j | 0 <= j < |ts| - 1 :: ts[..|ts| - 1][j] == ts[j];
      i := if ts[k].distance < ts[|ts| - 1].distance then |ts| - 1 else k;
    }
  }

  /** Without conflict zones no running tick is idle: some truck goes on, and none goes back. */
  lemma NoDeadlock(c: Config, f: Fleet, tick: Tick)
    requires c.Valid() && c.groups == [] && FleetOk(c, f) && f.trucks != []
    requires tick.Counts() && !tick.emergencyStopped && tick.cruise > 0.0
    ensures var r := Advance(c, f, tick).0;
            && (exists i | 0 <= i < |f.trucks| :: Further(f.trucks[i], r.trucks[i]))
            && (forall i | 0 <= i < |f.trucks| :: Further(f.trucks[i], r.trucks[i]) || SamePlace(f.trucks[i], r.trucks[i]))
  {
    hide StepTruck, Further, SamePlace, TruckOk;
    var ts, stamp := f.trucks, StampOf(tick, f.elapsed + tick.dt);
    SweepGoesOnOrStays(c, ts, |ts|, tick.dt, tick.cruise, stamp);
    var end := SweepTo(c, ts, |ts|, tick.dt, tick.cruise, stamp);
    if !exists j | 0 <= j < |ts| :: Further(ts[j], end.trucks[j]) {
      assert forall j | 0 <= j < |ts| :: SamePlace(ts[j], end.trucks[j]) && !InService(ts[j]);
      assert !SomeLoading(ts) && !SomeTipping(ts);
      var i := FurthestTruck(ts);
      LeaderIsReached(c, ts, i, tick.dt, tick.cruise, stamp);
    }
  }

  /** If nobody went on by the end of the tick, the leader met free bays and unmoved traffic, and went on. */
  lemma LeaderIsReached(c: Config, ts: seq<Truck>, i: nat, dt: real, cruise: real, stamp: real)
    requires c.Valid() && c.groups == [] && dt > 0.0 && cruise > 0.0 && AllTimed(c, ts)
    requires TrucksOk(c, ts) && BaysExclusive(ts) && !SomeLoading(ts) && !SomeTipping(ts)
    requires i < |ts| && forall j | 0 <= j < |ts| :: ts[j].distance <= ts[i].distance
    ensures exists j | 0 <= j < |ts| :: Further(ts[j], SweepTo(c, ts, |ts|, dt, cruise, stamp).trucks[j])
  {
    hide StepTruck, Further, TruckOk;
    var end := SweepTo(c, ts, |ts|, dt, cruise, stamp);
    var s := SweepTo(c, ts, i, dt, cruise, stamp);
    SweepGoesOnOrStays(c, ts, i, dt, cruise, stamp);
    SweepAt(c, ts, i, dt, cruise, stamp);
    if j: nat :| j < i && Further(ts[j], s.trucks[j]) {
      SweepSettles(c, ts, j + 1, i, dt, cruise, stamp, j);
      SweepSettles(c, ts, j + 1, |ts|, dt, cruise, stamp, j);
      assert Further(ts[j], end.trucks[j]);
    } else {
      assert forall j | 0 <= j < |ts| :: s.trucks[j].distance == ts[j].distance;
      LeaderGoesOn(c, s, i, dt, cruise, stamp);
      assert Further(ts[i], end.trucks[i]);
    }
  }

  /** In every reachable state of a fleet without conflict zones. */
  lemma RunNeverDeadlocks(c: Config, numbers: seq<int>, ticks: seq<Tick>, tick: Tick)
    requires c.Valid() && c.groups == [] && QueueFits(c, |numbers|) && DrivesForward(ticks) && numbers != []
    requires tick.Counts() && !tick.emergencyStopped && tick.cruise > 0.0
    ensures var f := Run(c, numbers, ticks).0;
            exists i | 0 <= i < |f.trucks| :: Further(f.trucks[i], Advance(c, f, tick).0.trucks[i])
  {
    hide Run, Further, StepTruck, SweepTo, TrucksOk;
    var f := Run(c, numbers, ticks).0;
    NoDeadlock(c, f, tick);
    var r := Advance(c, f, tick).0;
    var i :| 0 <= i < |f.trucks| && Further(f.trucks[i], r.trucks[i]);
    assert Further(Run(c, numbers, ticks).0.trucks[i], Advance(c, Run(c, numbers, ticks).0, tick).0.trucks[i]);
  }
}
