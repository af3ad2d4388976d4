/** What holds a truck back, and nothing else does: the limit of a move is the nearest of the places at
    which something stops the truck, and the move goes as far as speed, turn and limit let it. */
module HaulLimits {
  import opened Options
  import opened HaulModel
  import opened HaulInvariants
  import opened HaulTraffic

  // ---------------------------------------------------------------------------
  // Conflict zones
  // ---------------------------------------------------------------------------

  /** Interval b is the first of the group, in its own order, that starts past d. */
  predicate FirstPast(group: seq<Interval>, d: real, b: nat) {
    && b < |group| && d < group[b].start
    && forall a | 0 <= a < b :: group[a].start <= d
  }

  /** Truck j is between half a metre before interval k of the group and two metres past it, and that interval
      is not v; as a list no interval is. */
  predicate Occupies(c: Config, ts: seq<Truck>, group: seq<Interval>, v: Interval, j: nat, k: nat) {
    && j < |ts| && k < |group| && (c.listIntervals || group[k] != v)
    && group[k].start - 0.5 <= ts[j].distance <= group[k].end + 2.0
  }

  /** Two metres before the zone it is coming to, truck i has to stop for another truck, in one of the first
      `count` groups. */
  ghost predicate ZoneStop(c: Config, ts: seq<Truck>, i: nat, count: nat, m: real)
    requires i < |ts| && count <= |c.groups|
  {
    exists g: nat, b: nat, j: nat, k: nat ::
      && g < count && FirstPast(c.groups[g], ts[i].distance, b) && m == c.groups[g][b].start - 2.0
      && j != i && Occupies(c, ts, c.groups[g], c.groups[g][b], j, k)
  }

  lemma {:induction false} ApproachingExactly(group: seq<Interval>, d: real)
    ensures match Approaching(group, d)
            case None => forall b: nat :: !FirstPast(group, d, b)
            case Some(v) => exists b: nat :: FirstPast(group, d, b) && group[b] == v
  {
    if group == [] {
    } else if d < group[0].start {
      assert FirstPast(group, d, 0);
    } else {
      var rest := group[1..];
      ApproachingExactly(rest, d);
      forall b: nat | FirstPast(group, d, b) ensures FirstPast(rest, d, b - 1) {
      }
      if Approaching(rest, d).Some? {
        var b: nat :| FirstPast(rest, d, b) && rest[b] == Approaching(rest, d).value;
        FirstPastShifts(group, d, b);
        assert FirstPast(group, d, b + 1) && group[b + 1] == rest[b];
      }
    }
  }

  lemma FirstPastShifts(group: seq<Interval>, d: real, b: nat)
    requires group != [] && group[0].start <= d && FirstPast(group[1..], d, b)
    ensures FirstPast(group, d, b + 1)
  {
    forall a | 0 <= a < b + 1 ensures group[a].start <= d {
      if a > 0 {
        assert group[1..][a - 1].start <= d;
      }
    }
  }

  lemma FirstPastIsUnique(group: seq<Interval>, d: real, a: nat, b: nat)
    requires FirstPast(group, d, a) && FirstPast(group, d, b)
    ensures a == b
  {
  }

  /** What one group adds. */
  lemma GroupLimitExactly(c: Config, ts: seq<Truck>, i: nat, limit: real, count: nat)
    requires i < |ts| && count < |c.groups|
    ensures var r := GroupLimit(c, ts, i, c.groups[count], limit);
            && r <= limit && (r == limit || ZoneStop(c, ts, i, count + 1, r))
            && forall b: nat, j: nat, k: nat | FirstPast(c.groups[count], ts[i].distance, b) && j != i
                 && Occupies(c, ts, c.groups[count], c.groups[count][b], j, k) :: r <= c.groups[count][b].start - 2.0
  {
    var group, d := c.groups[count], ts[i].distance;
    ApproachingExactly(group, d);
    if Approaching(group, d).Some? {
      var v := Approaching(group, d).value;
      var b: nat :| FirstPast(group, d, b) && group[b] == v;
      forall other: nat | FirstPast(group, d, other) ensures other == b {
        FirstPastIsUnique(group, d, other, b);
      }
      if j: nat, k: nat :| j != i && Occupies(c, ts, group, v, j, k) {
        assert Distinguished(c, group[k], v) && InWidened(group[k], ts[j].distance);
        assert Blocked(c, ts, i, group, v);
      } else if Blocked(c, ts, i, group, v) {
        var j: nat, k: nat :| j < |ts| && k < |group| && j != i
                              && Distinguished(c, group[k], v) && InWidened(group[k], ts[j].distance);
        assert Occupies(c, ts, group, v, j, k);
      }
    }
  }

  lemma {:induction false} ConflictLimitIsLeast(c: Config, ts: seq<Truck>, i: nat, limit: real, count: nat)
    requires i < |ts| && count <= |c.groups|
    ensures var r := ConflictLimit(c, ts, i, limit, count);
            && r <= limit && (r == limit || ZoneStop(c, ts, i, count, r))
            && forall m | ZoneStop(c, ts, i, count, m) :: r <= m
  {
    hide GroupLimit, Occupies;
    if count > 0 {
      ConflictLimitIsLeast(c, ts, i, limit, count - 1);
      GroupLimitExactly(c, ts, i, ConflictLimit(c, ts, i, limit, count - 1), count - 1);
      forall m | ZoneStop(c, ts, i, count, m) ensures ConflictLimit(c, ts, i, limit, count) <= m {
        var g: nat, b: nat, j: nat, k: nat :|
          && g < count && FirstPast(c.groups[g], ts[i].distance, b) && m == c.groups[g][b].start - 2.0
          && j != i && Occupies(c, ts, c.groups[g], c.groups[g][b], j, k);
        assert g < count - 1 ==> ZoneStop(c, ts, i, count - 1, m);
      }
    }
  }

  /** The limit is lowered if and only if, for some group, another truck is inside a widened interval distinguished
      from the one being approached and that one lies below the limit, and then to the least such place. */
  lemma ConflictLimitExactly(c: Config, ts: seq<Truck>, i: nat, limit: real)
    requires i < |ts|
    ensures var r, n := ConflictLimit(c, ts, i, limit, |c.groups|), |c.groups|;
            && (r != limit <==> exists m :: m < limit && ZoneStop(c, ts, i, n, m))
            && (r != limit ==> ZoneStop(c, ts, i, n, r))
            && (forall m | ZoneStop(c, ts, i, n, m) :: r <= m)
            && r <= limit
  {
    hide ZoneStop;
    ConflictLimitIsLeast(c, ts, i, limit, |c.groups|);
  }

  // ---------------------------------------------------------------------------
  // Road, traffic and bays
  // ---------------------------------------------------------------------------

  /** Truck j is one that truck i must not come near: in the queue the others that queue or return, on the road
      all up to the stop it is heading for. */
  predicate Precedes(c: Config, ts: seq<Truck>, i: nat, j: nat)
    requires i < |ts|
  {
    && j < |ts| && j != i && ts[i].distance < ts[j].distance
    && match ts[i].phase
       case Queued => ts[j].phase.Queued? || ts[j].phase.Returning?
       case Hauling => ts[j].distance <= c.dump
       case _ => ts[j].distance <= c.total
  }

  /** A place at which truck i has to stop: the end of its road, one spacing before a truck it follows or a busy
      bay, or before a zone. */
  ghost predicate Stop(c: Config, ts: seq<Truck>, i: nat, bays: Bays, m: real)
    requires i < |ts|
  {
    TrafficStop(c, ts, i, bays, m) || ZoneStop(c, ts, i, |c.groups|, m)
  }

  ghost predicate TrafficStop(c: Config, ts: seq<Truck>, i: nat, bays: Bays, m: real)
    requires i < |ts|
  {
    var hauling := ts[i].phase.Hauling?;
    || m == (if hauling then c.dump else c.total)
    || (hauling && bays.tipping && m == c.dump - c.queueSpacing)
    || (!hauling && bays.loading && m == c.total - c.queueSpacing)
    || exists j: nat :: Precedes(c, ts, i, j) && m == ts[j].distance - c.queueSpacing
  }

  lemma TrafficLimitExactly(c: Config, ts: seq<Truck>, i: nat, bays: Bays)
    requires c.Valid() && i < |ts| && OnRoad(ts[i].phase)
    requires forall j | 0 <= j < |ts| :: ts[j].distance <= c.total
    ensures var r := TrafficLimit(c, ts, i, bays);
            TrafficStop(c, ts, i, bays, r) && forall m | TrafficStop(c, ts, i, bays, m) :: r <= m
  {
    var ahead := NearestAhead(c, ts, i, |ts|);
    forall j: nat | j < |ts| ensures Precedes(c, ts, i, j) <==> IsAhead(c, ts, i, j) {
    }
    if ahead.Some? {
      var j: nat :| j < |ts| && IsAhead(c, ts, i, j) && ts[j].distance == ahead.value;
      assert Precedes(c, ts, i, j);
    }
  }

  predicate OnRoad(p: Phase) { p.Queued? || p.Hauling? || p.Returning? }

  /** The limit of a move is the nearest of all places at which the truck has to stop. */
  lemma MoveLimitExactly(c: Config, ts: seq<Truck>, i: nat, bays: Bays)
    requires c.Valid() && i < |ts| && OnRoad(ts[i].phase)
    requires forall j | 0 <= j < |ts| :: ts[j].distance <= c.total
    ensures var r := MoveLimit(c, ts, i, bays); Stop(c, ts, i, bays, r) && forall m | Stop(c, ts, i, bays, m) :: r <= m
  {
    hide TrafficStop, ZoneStop, TrafficLimit, ConflictLimit;
    TrafficLimitExactly(c, ts, i, bays);
    ConflictLimitIsLeast(c, ts, i, TrafficLimit(c, ts, i, bays), |c.groups|);
  }

  // ---------------------------------------------------------------------------
  // The move
  // ---------------------------------------------------------------------------

  /** Truck i could go s metres: its planned speed and the turn allow it, and no stop is passed. */
  ghost predicate MayGo(c: Config, ts: seq<Truck>, i: nat, bays: Bays, dt: real, cruise: real, s: real)
    requires i < |ts|
  {
    || s == 0.0
    || (&& 0.0 < s <= cruise * ts[i].plan.speedScale * dt
        && (c.turnCap(ts[i].distance).Some? ==> s <= c.turnCap(ts[i].distance).value * dt)
        && forall m | Stop(c, ts, i, bays, m) :: ts[i].distance + s <= m)
  }

  lemma ReachExactly(c: Config, t: Truck, cruise: real, dt: real, s: real)
    requires dt > 0.0
    ensures s <= Reach(c, t, cruise, dt) <==>
            s <= cruise * t.plan.speedScale * dt && (c.turnCap(t.distance).Some? ==> s <= c.turnCap(t.distance).value * dt)
  {
    var planned := cruise * t.plan.speedScale;
    if c.turnCap(t.distance).Some? {
      var cap := c.turnCap(t.distance).value;
      if cap < planned {
        TimesKeepsOrder(cap, planned, dt);
      } else {
        TimesKeepsOrder(planned, cap, dt);
      }
    }
  }

  lemma TimesKeepsOrder(a: real, b: real, dt: real)
    requires a <= b && dt > 0.0
    ensures a * dt <= b * dt
  {
  }

  /** A move goes as far as it may, at the speed that takes the tick, and neither back nor further. */
  lemma MovesAsFarAsItMay(c: Config, ts: seq<Truck>, i: nat, bays: Bays, dt: real, cruise: real)
    requires c.Valid() && i < |ts| && OnRoad(ts[i].phase) && dt > 0.0 && cruise >= 0.0 && ts[i].plan.Valid()
    requires forall j | 0 <= j < |ts| :: ts[j].distance <= c.total
    ensures var u := Advanced(c, ts, i, bays, dt, cruise);
            var gone := u.distance - ts[i].distance;
            && gone >= 0.0 && MayGo(c, ts, i, bays, dt, cruise, gone)
            && (forall s | MayGo(c, ts, i, bays, dt, cruise, s) :: s <= gone)
            && u.speed * dt == gone
  {
    hide Stop, MoveLimit, Reach;
    MoveLimitExactly(c, ts, i, bays);
    ReachBounds(c, ts[i], cruise, dt);
    var u := Advanced(c, ts, i, bays, dt, cruise);
    var gone := u.distance - ts[i].distance;
    ReachExactly(c, ts[i], cruise, dt, gone);
    forall s | MayGo(c, ts, i, bays, dt, cruise, s) ensures s <= gone {
      ReachExactly(c, ts[i], cruise, dt, s);
    }
    SpeedTimesTime(gone, dt);
  }

  lemma SpeedTimesTime(gone: real, dt: real)
    requires dt > 0.0
    ensures gone / dt * dt == gone
  {
  }

  // ---------------------------------------------------------------------------
  // What a step leads to
  // ---------------------------------------------------------------------------

  /** The service of the truck's phase ends in this tick. */
  predicate ServiceEnds(c: Config, t: Truck, dt: real) {
    match t.phase
    case Loading => t.timer + dt >= c.loadingS * t.plan.loadingScale
    case Reversing | Exiting => t.timer + dt >= c.reversingS
    case Dumping => t.timer + dt >= c.dumpingS * t.plan.dumpingScale
    case Lowering => t.timer + dt >= c.loweringS
    case _ => false
  }

  /** At the place it has got to, the truck goes over to its next phase: into a free bay, or back to the queue. */
  predicate Arrives(c: Config, t: Truck, place: real, bays: Bays) {
    match t.phase
    case Queued => place >= c.total - 0.000001 && !bays.loading
    case Hauling => place >= c.dump - 0.000001 && !bays.tipping
    case Returning => place >= c.total - 0.000001
    case _ => false
  }

  function Following(p: Phase): Phase {
    match p
    case Queued => Loading
    case Loading => Hauling
    case Hauling => Reversing
    case Reversing => Dumping
    case Dumping => Lowering
    case Lowering => Exiting
    case Exiting => Returning
    case Returning => Queued
  }

  /** A truck enters its next phase exactly when its service ends or it arrives; it carries its place along, except
      into the loading bay at 0; it docks at the speed that takes the whole docking time, and stands in every other
      service; it takes the bay it enters, and completing a cycle is what completes a trip. */
  lemma StepOutcome(c: Config, s: Sweep, i: nat, dt: real, cruise: real, stamp: real)
    requires c.Valid() && SweepOk(c, s) && i < |s.trucks| && dt > 0.0 && cruise >= 0.0 && Timed(c, s.trucks[i])
    ensures var t, r := s.trucks[i], StepTruck(c, s, i, dt, cruise, stamp);
            var u := r.trucks[i];
            var place := if OnRoad(t.phase) then Advanced(c, s.trucks, i, s.bays, dt, cruise).distance else t.distance;
            var next := ServiceEnds(c, t, dt) || Arrives(c, t, place, s.bays);
            && u.phase == (if next then Following(t.phase) else t.phase)
            && u.timer == (if next || OnRoad(t.phase) then 0.0 else t.timer + dt)
            && u.distance == (if next && t.phase.Queued? then 0.0 else place)
            && (if OnRoad(t.phase) then
                  u.speed == if next && t.phase.Queued? then 0.0 else Advanced(c, s.trucks, i, s.bays, dt, cruise).speed
                else if next || !(t.phase.Reversing? || t.phase.Exiting?) then u.speed == 0.0
                else u.speed * c.reversingS == c.dockingLength)
            && (r.bays.loading <==> s.bays.loading || (next && t.phase.Queued?))
            && (r.bays.tipping <==> s.bays.tipping || (next && t.phase.Hauling?))
            && (if next && t.phase.Returning? then
                  && u.cycle == t.cycle + 1 && u.tripNumber == t.tripNumber + 1 && u.plan == c.plans(i, t.tripNumber + 1)
                  && |r.trips| == |s.trips| + 1 && r.trips[..|s.trips|] == s.trips
                  && r.trips[|s.trips|].truck == i && r.trips[|s.trips|].tripNumber == t.tripNumber
                  && r.trips[|s.trips|].end == stamp
                else u.cycle == t.cycle && u.tripNumber == t.tripNumber && u.plan == t.plan && r.trips == s.trips)
  {
    hide MoveLimit, Reach, LoadShare, DumpShare, DockStep;
    assert TruckOk(c, s.trucks[i]);
    SpeedTimesTime(c.dockingLength, c.reversingS);
  }

  /** The bed fills in proportion to time, then carries the planned load; while tipping it stays full for three tenths
      of the time, empties evenly and is empty from nine tenths on. */
  lemma SharesExactly(timer: real, duration: real)
    requires duration > 0.0 && timer >= 0.0
    ensures LoadShare(timer, duration) * duration == (if timer <= duration then timer else duration)
    ensures timer <= 0.3 * duration ==> DumpShare(timer, duration) == 1.0
    ensures timer >= 0.9 * duration ==> DumpShare(timer, duration) == 0.0
    ensures 0.3 * duration <= timer <= 0.9 * duration ==>
              0.6 * duration * DumpShare(timer, duration) == 0.9 * duration - timer
  {
    var q := timer / duration;
    assert q * duration == timer;
    QuotientAgainst(timer, duration, 1.0);
    QuotientAgainst(timer, duration, 0.3);
    QuotientAgainst(timer, duration, 0.9);
  }

  lemma QuotientAgainst(timer: real, duration: real, share: real)
    requires duration > 0.0
    ensures timer / duration <= share <==> timer <= share * duration
    ensures timer / duration >= share <==> timer >= share * duration
  {
    var q := timer / duration;
    assert q * duration == timer;
    if q <= share {
      TimesKeepsOrder(q, share, duration);
    }
    if q >= share {
      TimesKeepsOrder(share, q, duration);
    }
    if q > share {
      assert (q - share) * duration > 0.0;
    }
    if q < share {
      assert (share - q) * duration > 0.0;
    }
  }

  // ---------------------------------------------------------------------------
  // A tick
  // ---------------------------------------------------------------------------

  /** A tick that is not running or takes no time halts the fleet and no clock goes on; an emergency stop halts it and is
      idle time; otherwise every truck takes its step among those before it already moved and those after it not yet,
      and trips are stamped with the given time or the fleet's own in milliseconds. */
  lemma TickExactly(c: Config, f: Fleet, tick: Tick, i: nat)
    requires c.Valid() && FleetOk(c, f) && tick.cruise >= 0.0 && i < |f.trucks|
    ensures var (r, trips) := Advance(c, f, tick);
            var t, u := f.trucks[i], r.trucks[i];
            if !tick.running || tick.dt <= 0.0 then
              r.elapsed == f.elapsed && trips == [] && u == t.(speed := 0.0)
            else if tick.emergencyStopped then
              && r.elapsed == f.elapsed + tick.dt && trips == []
              && u == t.(speed := 0.0, accounting := t.accounting.(idle := t.accounting.idle + tick.dt))
            else
              && r.elapsed == f.elapsed + tick.dt
              && var stamp := if tick.stamp.Some? then tick.stamp.value else 1000.0 * r.elapsed;
                 var s := SweepTo(c, f.trucks, i, tick.dt, tick.cruise, stamp);
                 && u == StepTruck(c, s, i, tick.dt, tick.cruise, stamp).trucks[i]
                 && (forall j | 0 <= j < i :: s.trucks[j] == r.trucks[j])
                 && (forall j | i <= j < |f.trucks| :: s.trucks[j] == f.trucks[j])
  {
    hide StepTruck, TruckOk;
    if tick.running && tick.dt > 0.0 && !tick.emergencyStopped {
      var stamp := StampOf(tick, f.elapsed + tick.dt);
      SweepAt(c, f.trucks, i, tick.dt, tick.cruise, stamp);
      forall j | 0 <= j < i
        ensures SweepTo(c, f.trucks, i, tick.dt, tick.cruise, stamp).trucks[j]
             == SweepTo(c, f.trucks, |f.trucks|, tick.dt, tick.cruise, stamp).trucks[j]
      {
        SweepSettles(c, f.trucks, i, |f.trucks|, tick.dt, tick.cruise, stamp, j);
      }
    }
  }

  /** The bays that are spoken for when a tick begins are those with a truck in them. */
  lemma BaysExactly(ts: seq<Truck>)
    ensures BaysAt(ts).loading <==> exists t :: t in ts && t.phase.Loading?
    ensures BaysAt(ts).tipping <==>
            exists t :: t in ts && (t.phase.Reversing? || t.phase.Dumping? || t.phase.Lowering? || t.phase.Exiting?)
  {
    assert forall i | 0 <= i < |ts| :: ts[i] in ts;
  }

  /** Every truck starts empty and standing in the queue, one spacing behind the one before it, on its first cycle. */
  lemma FleetStarts(c: Config, numbers: seq<int>, i: nat)
    requires i < |numbers|
    ensures var f := StartingFleet(c, numbers);
            && |f.trucks| == |numbers| && f.elapsed == 0.0
            && f.trucks[i].phase.Queued? && f.trucks[i].timer == f.trucks[i].payload == f.trucks[i].speed == 0.0
            && f.trucks[i].cycle == 1 && f.trucks[i].tripNumber == numbers[i] && f.trucks[i].plan == c.plans(i, numbers[i])
            && f.trucks[0].distance == c.total && f.trucks[i].accounting == Accounting(0.0, 0.0, 0.0, 0.0, 0.0, 0.0, 0.0)
            && (i > 0 ==> f.trucks[i - 1].distance - f.trucks[i].distance == c.queueSpacing)
  {
    if i > 0 {
      assert i as real * c.queueSpacing == (i - 1) as real * c.queueSpacing + c.queueSpacing;
    }
  }
}
