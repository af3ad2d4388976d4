/** Conservation: every second of simulated time and every metre driven is in the
    ledger of the current cycle or in a completed trip. */
module HaulLedger {
  import opened HaulModel
  import opened HaulInvariants
  import opened HaulTraffic

  /** What an observer of one truck writes down about its current cycle: where the
      cycle began and the metres crept forward in the queue. Computed from the
      truck's places alone, never from its ledger. */
  datatype Mark = Mark(crept: real, cycleStart: real)

  /** The observer's note after truck i of s took its step. */
  function StepMark(c: Config, m: Mark, s: Sweep, i: nat, dt: real, cruise: real, stamp: real): Mark
    requires i < |s.trucks| && dt > 0.0 && Timed(c, s.trucks[i])
  {
    var t := s.trucks[i];
    var u := StepTruck(c, s, i, dt, cruise, stamp).trucks[i];
    if t.phase.Returning? && u.phase.Queued? then Mark(0.0, u.distance)
    else if t.phase.Queued? then m.(crept := m.crept + Advanced(c, s.trucks, i, s.bays, dt, cruise).distance - t.distance)
    else m
  }

  /** The completed trips of truck i, oldest first. */
  function TripsOf(log: seq<Trip>, i: nat): seq<Trip> {
    if log == [] then []
    else
      var rest := TripsOf(log[..|log| - 1], i);
      if log[|log| - 1].truck == i then rest + [log[|log| - 1]] else rest
  }

  function TotalTime(trips: seq<Trip>): real {
    if trips == [] then 0.0 else TotalTime(trips[..|trips| - 1]) + trips[|trips| - 1].duration
  }

  /** How much of a docking is done after `timer` of its `full` seconds. */
  function Docked(length: real, full: real, timer: real): real
    requires full != 0.0
  {
    length / full * timer
  }

  /** The distance the loaded and the empty ledger must show in each phase. */
  ghost predicate DistancesAgree(c: Config, t: Truck, m: Mark)
    requires c.Valid()
  {
    var loaded, empty := t.accounting.loadedDistance, t.accounting.emptyDistance;
    match t.phase
    case Queued => loaded == 0.0 && empty == m.crept == t.distance - m.cycleStart
    case Loading => loaded == 0.0 && empty == m.crept
    case Hauling => loaded == t.distance && empty == m.crept
    case Reversing => loaded == t.distance + Docked(c.dockingLength, c.reversingS, t.timer) && empty == m.crept
    case Dumping | Lowering => loaded == t.distance + c.dockingLength && empty == m.crept
    case Exiting =>
      loaded == t.distance + c.dockingLength && empty == m.crept + Docked(c.dockingLength, c.reversingS, t.timer)
    case Returning => loaded + empty == t.distance + 2.0 * c.dockingLength + m.crept
  }

  /** Once the truck has left the queue it has crept from where its cycle began to the loading stop. */
  ghost predicate CreptToStop(c: Config, t: Truck, m: Mark) {
    && m.cycleStart <= c.total
    && (!t.phase.Queued? ==> c.total - TOL <= m.cycleStart + m.crept <= c.total)
  }

  /** Who a truck is, the trip number it started on and where it stood then. */
  datatype Origin = Origin(truck: nat, number: int, position: real)

  function OriginOf(c: Config, numbers: seq<int>, i: nat): Origin
    requires i < |numbers|
  {
    Origin(i, numbers[i], c.total - i as real * c.queueSpacing)
  }

  /** The first cycle begins in the starting queue, every later one at the loading stop. */
  ghost predicate CycleBegan(c: Config, o: Origin, k: nat, start: real) {
    if k == 0 then start == o.position else c.total - TOL <= start <= c.total
  }

  /** How much longer than the circuit and two dockings trip k of a truck is: the
      first trip includes the way up the starting queue. */
  function QueueTravel(c: Config, o: Origin, k: nat): real {
    if k == 0 then c.total - o.position else 0.0
  }

  /** Trip k of a truck: numbered in sequence, as long in time as its ledger, and
      in distance once around the circuit and twice along the docking curve, up
      to the slack at the stops. */
  ghost predicate TripOk(c: Config, o: Origin, k: nat, trip: Trip) {
    && trip.truck == o.truck && trip.tripNumber == o.number + k
    && trip.duration == trip.accounting.Time() >= 0.0 && trip.start == trip.end - trip.duration * 1000.0
    && -2.0 * TOL <= trip.loadedDistance + trip.emptyDistance - c.total - 2.0 * c.dockingLength - QueueTravel(c, o, k) <= TOL
  }

  ghost predicate Balanced(c: Config, o: Origin, t: Truck, m: Mark, trips: seq<Trip>, elapsed: real)
    requires c.Valid()
  {
    TimeBalanced(t, trips, elapsed) && PlaceBalanced(c, o, t, m, trips)
  }

  ghost predicate TimeBalanced(t: Truck, trips: seq<Trip>, elapsed: real) {
    TotalTime(trips) + t.accounting.Time() == elapsed && t.accounting.Time() >= 0.0
  }

  ghost predicate PlaceBalanced(c: Config, o: Origin, t: Truck, m: Mark, trips: seq<Trip>)
    requires c.Valid()
  {
    && t.cycle == |trips| + 1 && t.tripNumber == o.number + |trips|
    && DistancesAgree(c, t, m)
    && CreptToStop(c, t, m) && CycleBegan(c, o, |trips|, m.cycleStart)
    && TripsOk(c, o, trips)
  }

  ghost predicate TripsOk(c: Config, o: Origin, trips: seq<Trip>) {
    forall k | 0 <= k < |trips| :: TripOk(c, o, k, trips[k])
  }

  /** The last step of a docking is capped: all steps add up to exactly its length. */
  lemma {:induction false} DockingAddsUp(length: real, full: real, timer: real, dt: real)
    requires full > 0.0 && 0.0 <= timer < full && dt > 0.0
    ensures Docked(length, full, timer) + DockStep(length, full, timer, dt) == Docked(length, full, Min(timer + dt, full))
    ensures Docked(length, full, 0.0) == 0.0 && Docked(length, full, full) == length
  {
    var speed := length / full;
    var left := Min(dt, Max(0.0, full - timer));
    assert speed * timer + speed * left == speed * (timer + left);
  }

  /** Tipping keeps the books. */
  lemma {:induction false} TippedBalances(c: Config, o: Origin, t: Truck, m: Mark, trips: seq<Trip>, dt: real, elapsed: real)
    requires c.Valid() && dt > 0.0 && TruckOk(c, t) && AtTip(t.phase) && Timed(c, t)
    requires Balanced(c, o, t, m, trips, elapsed)
    ensures Balanced(c, o, Tipped(c, t, dt), m, trips, elapsed + dt)
  {
    hide DumpShare, LoadShare, DockStep, Docked, PayloadOk, TripsOk, CycleBegan;
    if t.phase.Reversing? || t.phase.Exiting? {
      DockingAddsUp(c.dockingLength, c.reversingS, t.timer, dt);
    } else {
      DockingAddsUp(c.dockingLength, c.reversingS, 0.0, dt);
    }
  }

  lemma {:induction false} AdvancedLedger(c: Config, ts: seq<Truck>, i: nat, bays: Bays, dt: real, cruise: real)
    requires c.Valid() && i < |ts| && dt > 0.0 && cruise >= 0.0 && ts[i].plan.Valid()
    requires forall j | 0 <= j < |ts| :: ts[j].distance <= c.total
    ensures var t, u := ts[i], Advanced(c, ts, i, bays, dt, cruise);
            && u == t.(distance := u.distance, speed := u.speed, accounting := u.accounting)
            && u.accounting.Time() == t.accounting.Time() + dt
            && u.accounting.Distance() - u.distance == t.accounting.Distance() - t.distance
            && (t.phase.Hauling? ==> u.accounting.emptyDistance == t.accounting.emptyDistance)
            && (!t.phase.Hauling? ==> u.accounting.loadedDistance == t.accounting.loadedDistance)
  {
    hide MoveLimit;
    ReachBounds(c, ts[i], cruise, dt);
  }

  /** At most one trip was completed; it ended now and brought the completed time up to date. */
  ghost predicate Grown(before: seq<Trip>, after: seq<Trip>, stamp: real, elapsed: real) {
    || after == before
    || (&& |after| == |before| + 1 && after[..|before|] == before
        && after[|before|].end == stamp && TotalTime(after) == elapsed)
  }

  lemma {:induction false} TripsOfAppend(log: seq<Trip>, trip: Trip, i: nat)
    ensures TripsOf(log + [trip], i) == if trip.truck == i then TripsOf(log, i) + [trip] else TripsOf(log, i)
  {
    assert (log + [trip])[..|log|] == log;
  }

  lemma {:induction false} TotalTimeAppend(trips: seq<Trip>, trip: Trip)
    ensures TotalTime(trips + [trip]) == TotalTime(trips) + trip.duration
  {
    assert (trips + [trip])[..|trips|] == trips;
  }

  /** At completion the ledger shows the final position plus two docking lengths
      plus the queue travel of this cycle. */
  lemma {:induction false} CompletedTripOk(c: Config, o: Origin, u: Truck, m: Mark, trips: seq<Trip>, stamp: real, elapsed: real)
    requires c.Valid() && Balanced(c, o, u, m, trips, elapsed)
    requires u.phase.Returning? && c.total - TOL <= u.distance <= c.total
    ensures var trip := CompletedTrip(o.truck, u, stamp);
            && trip.loadedDistance + trip.emptyDistance == u.distance + 2.0 * c.dockingLength + m.crept
            && TripOk(c, o, |trips|, trip)
  {
    hide TripsOk, TotalTime, Docked;
  }

  /** What the step of a truck on the road comes to. */
  lemma {:induction false} MovingStep(c: Config, s: Sweep, i: nat, dt: real, cruise: real, stamp: real)
    requires c.Valid() && i < |s.trucks| && dt > 0.0 && Timed(c, s.trucks[i])
    requires s.trucks[i].phase.Queued? || s.trucks[i].phase.Hauling? || s.trucks[i].phase.Returning?
    ensures var t, u, r := s.trucks[i], Advanced(c, s.trucks, i, s.bays, dt, cruise), StepTruck(c, s, i, dt, cruise, stamp);
            if t.phase.Returning? && u.distance >= c.total - TOL then
              r.trucks[i] == NextCycle(c, i, u) && r.trips == s.trips + [CompletedTrip(i, u, stamp)]
            else
              && r.trips == s.trips
              && r.trucks[i] == u.(distance := r.trucks[i].distance, phase := r.trucks[i].phase,
                                   timer := r.trucks[i].timer, speed := r.trucks[i].speed)
              && (r.trucks[i].phase == u.phase ==> r.trucks[i].distance == u.distance)
              && (r.trucks[i].phase != u.phase ==>
                    && r.trucks[i].timer == 0.0
                    && ((t.phase.Queued? && r.trucks[i].phase.Loading? && u.distance >= c.total - TOL)
                        || (t.phase.Hauling? && r.trucks[i].phase.Reversing? && r.trucks[i].distance == u.distance)))
              && (r.trucks[i].phase == u.phase ==> r.trucks[i].timer == u.timer)
  {
    hide MoveLimit, Reach, LoadShare, DumpShare;
  }

  function MovedMark(m: Mark, t: Truck, u: Truck): Mark {
    if t.phase.Queued? then m.(crept := m.crept + u.distance - t.distance) else m
  }

  /** Driving keeps the books. */
  lemma {:induction false} DrivingBalances(c: Config, o: Origin, t: Truck, u: Truck, m: Mark, trips: seq<Trip>, dt: real, elapsed: real)
    requires c.Valid() && Balanced(c, o, t, m, trips, elapsed) && dt > 0.0
    requires t.phase.Queued? || t.phase.Hauling? || t.phase.Returning?
    requires u == t.(distance := u.distance, speed := u.speed, accounting := u.accounting)
    requires u.accounting.Time() == t.accounting.Time() + dt
    requires u.accounting.Distance() - u.distance == t.accounting.Distance() - t.distance
    requires t.phase.Hauling? ==> u.accounting.emptyDistance == t.accounting.emptyDistance
    requires !t.phase.Hauling? ==> u.accounting.loadedDistance == t.accounting.loadedDistance
    ensures Balanced(c, o, u, MovedMark(m, t, u), trips, elapsed + dt)
  {
    hide TotalTime, TripsOk, CycleBegan, Docked;
  }

  lemma {:induction false} TripsOkAppend(c: Config, o: Origin, trips: seq<Trip>, trip: Trip)
    requires TripsOk(c, o, trips) && TripOk(c, o, |trips|, trip)
    ensures TripsOk(c, o, trips + [trip])
  {
    hide TripOk;
  }

  /** A truck at the start of a cycle has empty books that balance. */
  lemma {:induction false} FreshBooksBalance(c: Config, o: Origin, t: Truck, trips: seq<Trip>, elapsed: real)
    requires c.Valid() && t.distance <= c.total && CycleBegan(c, o, |trips|, t.distance)
    requires t.phase.Queued? && t.cycle == |trips| + 1 && t.tripNumber == o.number + |trips|
    requires t.accounting.Time() == 0.0 && t.accounting.loadedDistance == 0.0 && t.accounting.emptyDistance == 0.0
    requires TotalTime(trips) == elapsed && TripsOk(c, o, trips)
    ensures Balanced(c, o, t, Mark(0.0, t.distance), trips, elapsed)
  {
  }

  lemma NothingBooked(a: Accounting)
    requires a == EMPTY_ACCOUNTING
    ensures a.Time() == 0.0
  {
  }

  lemma {:induction false} BookedTime(c: Config, o: Origin, u: Truck, m: Mark, trips: seq<Trip>, elapsed: real)
    requires c.Valid() && Balanced(c, o, u, m, trips, elapsed)
    ensures TotalTime(trips) + u.accounting.Time() == elapsed
  {
  }

  /** Completing a cycle keeps the books: the ledger moves into the trip. */
  lemma {:induction false} CompletingBalances(c: Config, o: Origin, u: Truck, m: Mark, trips: seq<Trip>, stamp: real, elapsed: real)
    requires c.Valid() && Balanced(c, o, u, m, trips, elapsed)
    requires u.phase.Returning? && c.total - TOL <= u.distance <= c.total
    ensures Balanced(c, o, NextCycle(c, o.truck, u), Mark(0.0, u.distance), trips + [CompletedTrip(o.truck, u, stamp)], elapsed)
  {
    hide TotalTime, TripsOk, Docked, TripOk, Accounting.Time;
    NothingBooked(EMPTY_ACCOUNTING);
    var trip := CompletedTrip(o.truck, u, stamp);
    BookedTime(c, o, u, m, trips, elapsed);
    TotalTimeAppend(trips, trip);
    CompletedTripOk(c, o, u, m, trips, stamp, elapsed);
    TripsOkAppend(c, o, trips, trip);
    FreshBooksBalance(c, o, NextCycle(c, o.truck, u), trips + [trip], elapsed);
  }

  /** Entering a bay keeps the books. */
  lemma {:induction false} EnteringBalances(c: Config, o: Origin, u: Truck, v: Truck, m: Mark, trips: seq<Trip>, elapsed: real)
    requires c.Valid() && Balanced(c, o, u, m, trips, elapsed)
    requires v == u.(distance := v.distance, phase := v.phase, timer := 0.0, speed := v.speed)
    requires (u.phase.Queued? && v.phase.Loading? && c.total - TOL <= u.distance <= c.total)
             || (u.phase.Hauling? && v.phase.Reversing? && v.distance == u.distance)
    ensures Balanced(c, o, v, m, trips, elapsed)
  {
    hide TotalTime, TripsOk, CycleBegan, Docked;
    DockingAddsUp(c.dockingLength, c.reversingS, 0.0, 1.0);
  }

  lemma {:induction false} MovingBalances(c: Config, o: Origin, s: Sweep, i: nat, dt: real, cruise: real, stamp: real, m: Mark, log: seq<Trip>, elapsed: real)
    requires c.Valid() && SweepOk(c, s) && i < |s.trucks| && dt > 0.0 && cruise >= 0.0 && Timed(c, s.trucks[i])
    requires o.truck == i && Balanced(c, o, s.trucks[i], m, TripsOf(log + s.trips, i), elapsed)
    requires s.trucks[i].phase.Queued? || s.trucks[i].phase.Hauling? || s.trucks[i].phase.Returning?
    ensures var r := StepTruck(c, s, i, dt, cruise, stamp);
            && Balanced(c, o, r.trucks[i], StepMark(c, m, s, i, dt, cruise, stamp), TripsOf(log + r.trips, i), elapsed + dt)
            && Grown(TripsOf(log + s.trips, i), TripsOf(log + r.trips, i), stamp, elapsed + dt)
  {
    hide Advanced, StepTruck, Balanced, TripsOf, InRegion, TimerOk, PayloadOk;
    DistancesBounded(c, s.trucks);
    var t, u := s.trucks[i], Advanced(c, s.trucks, i, s.bays, dt, cruise);
    var r := StepTruck(c, s, i, dt, cruise, stamp);
    assert TruckOk(c, t);
    AdvancedInBounds(c, s.trucks, i, s.bays, dt, cruise);
    AdvancedLedger(c, s.trucks, i, s.bays, dt, cruise);
    MovingStep(c, s, i, dt, cruise, stamp);
    var trips := TripsOf(log + s.trips, i);
    DrivingBalances(c, o, t, u, m, trips, dt, elapsed);
    if t.phase.Returning? && u.distance >= c.total - TOL {
      assert log + r.trips == (log + s.trips) + [CompletedTrip(o.truck, u, stamp)];
      TripsOfAppend(log + s.trips, CompletedTrip(o.truck, u, stamp), i);
      CompletingBalances(c, o, u, m, trips, stamp, elapsed + dt);
      LedgerStartsEmpty(c, o, u, trips + [CompletedTrip(o.truck, u, stamp)], Mark(0.0, u.distance), elapsed + dt);
    } else if r.trucks[i].phase != u.phase {
      EnteringBalances(c, o, u, r.trucks[i], MovedMark(m, t, u), trips, elapsed + dt);
    } else {
      assert r.trucks[i] == u.(speed := r.trucks[i].speed);
      SpeedIsNotBooked(c, o, u, r.trucks[i], MovedMark(m, t, u), trips, elapsed + dt);
    }
  }

  lemma {:induction false} LedgerStartsEmpty(c: Config, o: Origin, u: Truck, trips: seq<Trip>, m: Mark, elapsed: real)
    requires c.Valid() && Balanced(c, o, NextCycle(c, o.truck, u), m, trips, elapsed)
    ensures TotalTime(trips) == elapsed
  {
    hide TripsOk, CycleBegan, Docked;
  }

  lemma {:induction false} SpeedIsNotBooked(c: Config, o: Origin, u: Truck, v: Truck, m: Mark, trips: seq<Trip>, elapsed: real)
    requires c.Valid() && Balanced(c, o, u, m, trips, elapsed) && v == u.(speed := v.speed)
    ensures Balanced(c, o, v, m, trips, elapsed)
  {
    hide TotalTime, TripsOk, CycleBegan, Docked;
  }

  lemma {:induction false} StepBalances(c: Config, o: Origin, s: Sweep, i: nat, dt: real, cruise: real, stamp: real, m: Mark, log: seq<Trip>, elapsed: real)
    requires c.Valid() && SweepOk(c, s) && i < |s.trucks| && dt > 0.0 && cruise >= 0.0 && Timed(c, s.trucks[i])
    requires o.truck == i && Balanced(c, o, s.trucks[i], m, TripsOf(log + s.trips, i), elapsed)
    ensures var r := StepTruck(c, s, i, dt, cruise, stamp);
            && Balanced(c, o, r.trucks[i], StepMark(c, m, s, i, dt, cruise, stamp), TripsOf(log + r.trips, i), elapsed + dt)
            && Grown(TripsOf(log + s.trips, i), TripsOf(log + r.trips, i), stamp, elapsed + dt)
  {
    hide Advanced, DumpShare, LoadShare, Tipped, Docked, PayloadOk, TripsOf, TotalTime, TripsOk, CycleBegan;
    var t := s.trucks[i];
    assert TruckOk(c, t);
    match t.phase
    case Queued | Hauling | Returning => MovingBalances(c, o, s, i, dt, cruise, stamp, m, log, elapsed);
    case Loading => DockingAddsUp(c.dockingLength, c.reversingS, 0.0, dt);
    case _ => TippedBalances(c, o, t, m, TripsOf(log + s.trips, i), dt, elapsed);
  }

  // ---------------------------------------------------------------------------
  // Ticks
  // ---------------------------------------------------------------------------

  lemma {:induction false} StepTripsOfOthers(c: Config, s: Sweep, i: nat, dt: real, cruise: real, stamp: real, log: seq<Trip>, j: nat)
    requires i < |s.trucks| && dt > 0.0 && Timed(c, s.trucks[i]) && j != i
    ensures TripsOf(log + StepTruck(c, s, i, dt, cruise, stamp).trips, j) == TripsOf(log + s.trips, j)
  {
    hide Advanced, TripsOf;
    var r := StepTruck(c, s, i, dt, cruise, stamp);
    if r.trips != s.trips {
      var trip := CompletedTrip(i, Advanced(c, s.trucks, i, s.bays, dt, cruise), stamp);
      assert log + r.trips == (log + s.trips) + [trip];
      TripsOfAppend(log + s.trips, trip, j);
    }
  }

  ghost function SweepMarks(c: Config, ts: seq<Truck>, ms: seq<Mark>, k: nat, dt: real, cruise: real, stamp: real): (r: seq<Mark>)
    requires k <= |ts| == |ms| && dt > 0.0 && AllTimed(c, ts)
    ensures |r| == |ms| && forall j | k <= j < |ms| :: r[j] == ms[j]
  {
    if k == 0 then ms
    else
      var before := SweepMarks(c, ts, ms, k - 1, dt, cruise, stamp);
      before[k - 1 := StepMark(c, before[k - 1], SweepTo(c, ts, k - 1, dt, cruise, stamp), k - 1, dt, cruise, stamp)]
  }

  ghost function AdvanceMarks(c: Config, f: Fleet, ms: seq<Mark>, tick: Tick): (r: seq<Mark>)
    requires |ms| == |f.trucks| && AllTimed(c, f.trucks)
    ensures |r| == |ms|
  {
    if tick.Counts() && !tick.emergencyStopped then
      SweepMarks(c, f.trucks, ms, |f.trucks|, tick.dt, tick.cruise, StampOf(tick, f.elapsed + tick.dt))
    else ms
  }

  ghost predicate AllBalanced(c: Config, numbers: seq<int>, ts: seq<Truck>, ms: seq<Mark>, log: seq<Trip>, elapsed: real)
    requires c.Valid() && |ts| == |ms| == |numbers|
  {
    forall j | 0 <= j < |ts| :: Balanced(c, OriginOf(c, numbers, j), ts[j], ms[j], TripsOf(log, j), elapsed)
  }

  /** Up to truck k the tick is booked, from truck k on it is not. */
  lemma {:induction false} SweepBalances(
    c: Config, numbers: seq<int>, ts: seq<Truck>, ms: seq<Mark>, k: nat, dt: real, cruise: real, stamp: real,
    log: seq<Trip>, elapsed: real)
    requires c.Valid() && k <= |ts| == |ms| == |numbers| && dt > 0.0 && cruise >= 0.0 && AllTimed(c, ts)
    requires TrucksOk(c, ts) && BaysExclusive(ts) && AllBalanced(c, numbers, ts, ms, log, elapsed)
    ensures var s, n := SweepTo(c, ts, k, dt, cruise, stamp), SweepMarks(c, ts, ms, k, dt, cruise, stamp);
            && (forall j | 0 <= j < k ::
                  && Balanced(c, OriginOf(c, numbers, j), s.trucks[j], n[j], TripsOf(log + s.trips, j), elapsed + dt)
                  && Grown(TripsOf(log, j), TripsOf(log + s.trips, j), stamp, elapsed + dt))
            && (forall j | k <= j < |ts| :: TripsOf(log + s.trips, j) == TripsOf(log, j))
  {
    hide StepTruck, StepMark, Balanced, TripsOf, Grown, TruckOk, Timed;
    if k == 0 {
      assert log + [] == log;
    } else {
      var i := k - 1;
      SweepBalances(c, numbers, ts, ms, i, dt, cruise, stamp, log, elapsed);
      SweepAt(c, ts, i, dt, cruise, stamp);
      var s, n := SweepTo(c, ts, i, dt, cruise, stamp), SweepMarks(c, ts, ms, i, dt, cruise, stamp);
      StepBalances(c, OriginOf(c, numbers, i), s, i, dt, cruise, stamp, n[i], log, elapsed);
      forall j: nat | j < |ts| && j != i
        ensures TripsOf(log + StepTruck(c, s, i, dt, cruise, stamp).trips, j) == TripsOf(log + s.trips, j)
      {
        StepTripsOfOthers(c, s, i, dt, cruise, stamp, log, j);
      }
    }
  }

  lemma {:induction false} IdlingBalances(c: Config, o: Origin, t: Truck, m: Mark, trips: seq<Trip>, elapsed: real, dt: real)
    requires c.Valid() && dt >= 0.0 && Balanced(c, o, t, m, trips, elapsed)
    ensures Balanced(c, o, Idled(t, dt), m, trips, elapsed + dt)
    ensures Balanced(c, o, Halted(t), m, trips, elapsed)
  {
    hide TotalTime, TripsOk, Docked, CycleBegan;
  }

  lemma {:induction false} AdvanceBalances(c: Config, numbers: seq<int>, f: Fleet, ms: seq<Mark>, log: seq<Trip>, tick: Tick)
    requires c.Valid() && FleetOk(c, f) && |f.trucks| == |ms| == |numbers| && tick.cruise >= 0.0
    requires AllBalanced(c, numbers, f.trucks, ms, log, f.elapsed)
    ensures var r, n := Advance(c, f, tick), AdvanceMarks(c, f, ms, tick);
            && AllBalanced(c, numbers, r.0.trucks, n, log + r.1, r.0.elapsed)
            && forall j | 0 <= j < |f.trucks| ::
                 Grown(TripsOf(log, j), TripsOf(log + r.1, j), StampOf(tick, r.0.elapsed), r.0.elapsed)
  {
    hide SweepTo, SweepMarks, StepTruck, Balanced, TripsOf;
    if tick.Counts() && !tick.emergencyStopped {
      var stamp := StampOf(tick, f.elapsed + tick.dt);
      SweepBalances(c, numbers, f.trucks, ms, |f.trucks|, tick.dt, tick.cruise, stamp, log, f.elapsed);
    } else {
      assert log + [] == log;
      forall j: nat | j < |f.trucks| ensures
        var r := Advance(c, f, tick);
        Balanced(c, OriginOf(c, numbers, j), r.0.trucks[j], ms[j], TripsOf(log, j), r.0.elapsed)
      {
        IdlingBalances(c, OriginOf(c, numbers, j), f.trucks[j], ms[j], TripsOf(log, j), f.elapsed, Max(tick.dt, 0.0));
      }
    }
  }

  // ---------------------------------------------------------------------------
  // Runs
  // ---------------------------------------------------------------------------

  ghost function RunMarks(c: Config, numbers: seq<int>, ticks: seq<Tick>): (r: seq<Mark>)
    requires c.Valid() && QueueFits(c, |numbers|) && DrivesForward(ticks)
    ensures |r| == |numbers|
  {
    if ticks == [] then
      seq(|numbers|, i requires 0 <= i < |numbers| => Mark(0.0, StartingTruck(c, i, numbers[i]).distance))
    else
      var last := |ticks| - 1;
      AdvanceMarks(c, Run(c, numbers, ticks[..last]).0, RunMarks(c, numbers, ticks[..last]), ticks[last])
  }

  lemma {:induction false} StartingBalances(c: Config, numbers: seq<int>)
    requires c.Valid() && QueueFits(c, |numbers|)
    ensures AllBalanced(c, numbers, StartingFleet(c, numbers).trucks, RunMarks(c, numbers, []), [], 0.0)
  {
    hide Balanced, Accounting.Time;
    NothingBooked(EMPTY_ACCOUNTING);
    var ts, ms := StartingFleet(c, numbers).trucks, RunMarks(c, numbers, []);
    forall j: nat | j < |numbers| ensures Balanced(c, OriginOf(c, numbers, j), ts[j], ms[j], TripsOf([], j), 0.0) {
      QueuePosition(c, |numbers|, j);
      FreshBooksBalance(c, OriginOf(c, numbers, j), ts[j], [], 0.0);
    }
  }

  /** In every reachable state every truck's books balance. */
  lemma {:induction false} RunBalances(c: Config, numbers: seq<int>, ticks: seq<Tick>)
    requires c.Valid() && QueueFits(c, |numbers|) && DrivesForward(ticks)
    ensures var r := Run(c, numbers, ticks);
            AllBalanced(c, numbers, r.0.trucks, RunMarks(c, numbers, ticks), r.1, r.0.elapsed)
  {
    hide AllBalanced, Advance, AdvanceMarks, StartingFleet;
    if ticks == [] {
      StartingBalances(c, numbers);
      StartingElapsed(c, numbers);
    } else {
      var last := |ticks| - 1;
      RunBalances(c, numbers, ticks[..last]);
      var before := Run(c, numbers, ticks[..last]);
      AdvanceBalances(c, numbers, before.0, RunMarks(c, numbers, ticks[..last]), before.1, ticks[last]);
    }
  }

  lemma {:induction false} StartingElapsed(c: Config, numbers: seq<int>)
    ensures StartingFleet(c, numbers).elapsed == 0.0 && |StartingFleet(c, numbers).trucks| == |numbers|
  {
  }

  /** Conservation of time: the completed cycles of a truck and its current ledger
      add up to the elapsed time, through pauses and emergency stops. */
  lemma {:induction false} TimeIsConserved(c: Config, numbers: seq<int>, ticks: seq<Tick>, i: nat)
    requires c.Valid() && QueueFits(c, |numbers|) && DrivesForward(ticks) && i < |numbers|
    ensures var r := Run(c, numbers, ticks); var a := r.0.trucks[i].accounting;
            TotalTime(TripsOf(r.1, i)) + a.loading + a.loadedTravel + a.dumping + a.emptyReturn + a.idle == r.0.elapsed
  {
    hide Run, RunMarks, TripsOf, TotalTime, TripOk;
    RunBalances(c, numbers, ticks);
    var r := Run(c, numbers, ticks);
    assert Balanced(c, OriginOf(c, numbers, i), r.0.trucks[i], RunMarks(c, numbers, ticks)[i], TripsOf(r.1, i), r.0.elapsed);
  }

  /** Conservation of distance: loaded metres are the metres from the loading bay,
      and every completed trip is one circuit, two dockings and its queue travel. */
  lemma {:induction false} DistanceIsConserved(c: Config, numbers: seq<int>, ticks: seq<Tick>, i: nat)
    requires c.Valid() && QueueFits(c, |numbers|) && DrivesForward(ticks) && i < |numbers|
    ensures var r := Run(c, numbers, ticks); var t := r.0.trucks[i];
            && (t.phase.Hauling? ==> t.accounting.loadedDistance == t.distance)
            && (t.phase.Dumping? || t.phase.Lowering? || t.phase.Exiting? ==>
                  t.accounting.loadedDistance == t.distance + c.dockingLength)
            && (t.phase.Returning? ==>
                  t.accounting.Distance() == t.distance + 2.0 * c.dockingLength + RunMarks(c, numbers, ticks)[i].crept)
            && forall k | 0 <= k < |TripsOf(r.1, i)| :: TripOk(c, OriginOf(c, numbers, i), k, TripsOf(r.1, i)[k])
  {
    hide Run, RunMarks, TripsOf, TotalTime, TripOk, Docked;
    RunBalances(c, numbers, ticks);
    var r := Run(c, numbers, ticks);
    assert Balanced(c, OriginOf(c, numbers, i), r.0.trucks[i], RunMarks(c, numbers, ticks)[i], TripsOf(r.1, i), r.0.elapsed);
  }

  // ---------------------------------------------------------------------------
  // Trips never overlap
  // ---------------------------------------------------------------------------

  /** The simulated time after the ticks: pauses do not count. */
  function Elapsed(ticks: seq<Tick>): real {
    if ticks == [] then 0.0
    else
      var before := Elapsed(ticks[..|ticks| - 1]);
      if ticks[|ticks| - 1].Counts() then before + ticks[|ticks| - 1].dt else before
  }

  /** The timestamp tick p gives to the trips it completes. */
  function StampAt(ticks: seq<Tick>, p: nat): real
    requires p < |ticks|
  {
    StampOf(ticks[p], Elapsed(ticks[..p + 1]))
  }

  /** The timestamps advance by at least the simulated time. */
  ghost predicate StampsKeepUp(ticks: seq<Tick>) {
    forall p: nat, q: nat | p < q < |ticks| && ticks[q].Counts() ::
      StampAt(ticks, p) + (Elapsed(ticks[..q + 1]) - Elapsed(ticks[..p + 1])) * 1000.0 <= StampAt(ticks, q)
  }

  /** Trip k of the trips ended at tick p, when the completed cycles added up to the simulated time. */
  ghost predicate EndedAt(ticks: seq<Tick>, trips: seq<Trip>, k: nat, p: nat)
    requires k < |trips|
  {
    p < |ticks| && ticks[p].Counts()
    && trips[k].end == StampAt(ticks, p) && TotalTime(trips[..k + 1]) == Elapsed(ticks[..p + 1])
  }

  ghost predicate AllEnded(ticks: seq<Tick>, trips: seq<Trip>) {
    forall k: nat | k < |trips| :: Ended(ticks, trips, k)
  }

  ghost predicate Ended(ticks: seq<Tick>, trips: seq<Trip>, k: nat)
    requires k < |trips|
  {
    exists p: nat :: EndedAt(ticks, trips, k, p)
  }

  lemma {:induction false} RunElapsed(c: Config, numbers: seq<int>, ticks: seq<Tick>)
    requires c.Valid() && QueueFits(c, |numbers|) && DrivesForward(ticks)
    ensures Run(c, numbers, ticks).0.elapsed == Elapsed(ticks)
  {
    hide SweepTo, TrucksOk, BaysExclusive;
    if ticks != [] {
      RunElapsed(c, numbers, ticks[..|ticks| - 1]);
    }
  }

  lemma {:induction false} EndedBefore(ticks: seq<Tick>, tick: Tick, trips: seq<Trip>, k: nat, p: nat, grown: seq<Trip>)
    requires k < |trips| && EndedAt(ticks, trips, k, p) && |grown| >= |trips| && grown[..|trips|] == trips
    ensures EndedAt(ticks + [tick], grown, k, p)
  {
    assert (ticks + [tick])[..p + 1] == ticks[..p + 1];
    assert grown[k] == grown[..|trips|][k];
    assert grown[..k + 1] == trips[..k + 1];
  }

  lemma {:induction false} TickEndsTrips(ticks: seq<Tick>, tick: Tick, before: seq<Trip>, after: seq<Trip>)
    requires AllEnded(ticks, before)
    requires var now := Elapsed(ticks + [tick]); Grown(before, after, StampOf(tick, now), now)
    requires after == before || tick.Counts()
    ensures AllEnded(ticks + [tick], after)
  {
    hide TotalTime;
    var all := ticks + [tick];
    assert all[..|all|] == all;
    forall k: nat | k < |after| ensures Ended(all, after, k) {
      if k < |before| {
        assert Ended(ticks, before, k);
        var p: nat :| EndedAt(ticks, before, k, p);
        EndedBefore(ticks, tick, before, k, p, after);
      } else {
        assert after[..k + 1] == after;
        assert EndedAt(all, after, k, |ticks|);
      }
    }
  }

  lemma {:induction false} RunEndsTrips(c: Config, numbers: seq<int>, ticks: seq<Tick>, i: nat)
    requires c.Valid() && QueueFits(c, |numbers|) && DrivesForward(ticks) && i < |numbers|
    ensures AllEnded(ticks, TripsOf(Run(c, numbers, ticks).1, i))
  {
    hide SweepTo, TripsOf, AllEnded, TrucksOk, AllBalanced, Grown, RunMarks, TotalTime, AdvanceMarks;
    if ticks == [] {
      NoTripsYet(c, numbers, i);
    } else {
      var last := |ticks| - 1;
      var before := Run(c, numbers, ticks[..last]);
      var marks := RunMarks(c, numbers, ticks[..last]);
      RunEndsTrips(c, numbers, ticks[..last], i);
      RunBalances(c, numbers, ticks[..last]);
      RunElapsed(c, numbers, ticks);
      AdvanceBalances(c, numbers, before.0, marks, before.1, ticks[last]);
      assert ticks == ticks[..last] + [ticks[last]];
      var r := Advance(c, before.0, ticks[last]);
      assert Grown(TripsOf(before.1, i), TripsOf(before.1 + r.1, i), StampOf(ticks[last], r.0.elapsed), r.0.elapsed);
      if !ticks[last].Counts() {
        assert before.1 + r.1 == before.1;
      }
      TickEndsTrips(ticks[..last], ticks[last], TripsOf(before.1, i), TripsOf(before.1 + r.1, i));
    }
  }

  lemma {:induction false} NoTripsYet(c: Config, numbers: seq<int>, i: nat)
    requires c.Valid() && QueueFits(c, |numbers|)
    ensures AllEnded([], TripsOf(Run(c, numbers, []).1, i))
  {
  }

  lemma {:induction false} ElapsedGrows(ticks: seq<Tick>, p: nat, q: nat)
    requires p <= q <= |ticks|
    ensures Elapsed(ticks[..p]) <= Elapsed(ticks[..q])
  {
    if p < q {
      ElapsedGrows(ticks, p, q - 1);
      assert ticks[..q][..q - 1] == ticks[..q - 1];
    }
  }

  /** Consecutive trips of one truck never overlap, as long as the timestamps keep up. */
  lemma {:induction false} TripsDoNotOverlap(c: Config, numbers: seq<int>, ticks: seq<Tick>, i: nat, k: nat)
    requires c.Valid() && QueueFits(c, |numbers|) && DrivesForward(ticks) && i < |numbers|
    requires StampsKeepUp(ticks) && k + 1 < |TripsOf(Run(c, numbers, ticks).1, i)|
    ensures var trips := TripsOf(Run(c, numbers, ticks).1, i); trips[k].end <= trips[k + 1].start
  {
    hide Run, TripsOf, Elapsed, StampAt, TripOk;
    var trips := TripsOf(Run(c, numbers, ticks).1, i);
    RunEndsTrips(c, numbers, ticks, i);
    DistanceIsConserved(c, numbers, ticks, i);
    assert Ended(ticks, trips, k) && Ended(ticks, trips, k + 1);
    var p: nat :| EndedAt(ticks, trips, k, p);
    var q: nat :| EndedAt(ticks, trips, k + 1, q);
    assert trips[..k + 2][..k + 1] == trips[..k + 1];
    assert TotalTime(trips[..k + 2]) == TotalTime(trips[..k + 1]) + trips[k + 1].duration;
    TripStart(c, OriginOf(c, numbers, i), k + 1, trips[k + 1]);
    if q < p {
      ElapsedGrows(ticks, q + 1, p);
      ElapsedAtTick(ticks, p);
    }
  }

  lemma {:induction false} ElapsedAtTick(ticks: seq<Tick>, p: nat)
    requires p < |ticks| && ticks[p].Counts()
    ensures Elapsed(ticks[..p]) < Elapsed(ticks[..p + 1])
  {
    assert ticks[..p + 1][..p] == ticks[..p];
  }

  lemma {:induction false} TripStart(c: Config, o: Origin, k: nat, trip: Trip)
    requires TripOk(c, o, k, trip)
    ensures trip.start == trip.end - trip.duration * 1000.0 && trip.duration >= 0.0
  {
  }
}
