/** Every second and every metre is booked in its own column: an observer who sees phases and places only
    writes down the same ledgers, for the cycle under way and for every completed trip. */
module HaulColumns {
  import opened HaulModel
  import opened HaulInvariants
  import opened HaulTraffic
  import opened HaulThroughput
  import opened HaulLedger

  /** The seconds and metres of one cycle as the observer saw them spent. */
  datatype Spent = Spent(
    inLoadingBay: real, movingLoaded: real, atTip: real, movingEmpty: real, standing: real, hauled: real, driven: real)

  const NOTHING := Spent(0.0, 0.0, 0.0, 0.0, 0.0, 0.0, 0.0)

  /** The cycle under way and the completed ones, oldest first. */
  datatype Notes = Notes(now: Spent, done: seq<Spent>)

  /** What the observer adds in a tick in which a truck in this phase goes so many metres. */
  function Seen(n: Spent, p: Phase, gone: real, dt: real): Spent {
    match p
    case Loading => n.(inLoadingBay := n.inLoadingBay + dt)
    case Reversing | Dumping | Lowering | Exiting => n.(atTip := n.atTip + dt)
    case Hauling =>
      if gone > 0.0 then n.(movingLoaded := n.movingLoaded + dt, hauled := n.hauled + gone)
      else n.(standing := n.standing + dt)
    case Queued | Returning =>
      if gone > 0.0 then n.(movingEmpty := n.movingEmpty + dt, driven := n.driven + gone)
      else n.(standing := n.standing + dt)
  }

  /** The place a truck gets to in its step, before it enters a bay or the next cycle there. */
  function PlaceReached(c: Config, s: Sweep, i: nat, dt: real, cruise: real): real
    requires i < |s.trucks| && dt > 0.0
  {
    Advanced(c, s.trucks, i, s.bays, dt, cruise).distance
  }

  /** The notes on truck i after its step: back in the queue it begins a new cycle. */
  function StepNotes(c: Config, n: Notes, s: Sweep, i: nat, dt: real, cruise: real, stamp: real): Notes
    requires i < |s.trucks| && dt > 0.0 && Timed(c, s.trucks[i])
  {
    var before, after := s.trucks[i], StepTruck(c, s, i, dt, cruise, stamp).trucks[i];
    var now := Seen(n.now, before.phase, PlaceReached(c, s, i, dt, cruise) - before.distance, dt);
    if before.phase.Returning? && after.phase.Queued? then Notes(NOTHING, n.done + [now]) else n.(now := now)
  }

  /** The notes on truck i after a tick; an emergency stop is standing, a pause is not noted. */
  ghost function TickNotes(c: Config, n: Notes, f: Fleet, tick: Tick, i: nat): Notes
    requires AllTimed(c, f.trucks) && i < |f.trucks|
  {
    if Drives(tick) then
      var stamp := StampOf(tick, f.elapsed + tick.dt);
      StepNotes(c, n, SweepTo(c, f.trucks, i, tick.dt, tick.cruise, stamp), i, tick.dt, tick.cruise, stamp)
    else if tick.Counts() then n.(now := n.now.(standing := n.now.standing + tick.dt))
    else n
  }

  ghost function RunNotes(c: Config, numbers: seq<int>, ticks: seq<Tick>, i: nat): Notes
    requires c.Valid() && QueueFits(c, |numbers|) && DrivesForward(ticks) && i < |numbers|
  {
    if ticks == [] then Notes(NOTHING, [])
    else
      var last := |ticks| - 1;
      TickNotes(c, RunNotes(c, numbers, ticks[..last], i), Run(c, numbers, ticks[..last]).0, ticks[last], i)
  }

  // ---------------------------------------------------------------------------
  // Agreement
  // ---------------------------------------------------------------------------

  /** The five columns of time. */
  predicate SameTimes(a: Accounting, n: Spent) {
    && a.loading == n.inLoadingBay && a.loadedTravel == n.movingLoaded && a.dumping == n.atTip
    && a.emptyReturn == n.movingEmpty && a.idle == n.standing
  }

  /** How much of the docking curve the truck has driven loaded, and how much empty. */
  function DockedLoaded(c: Config, t: Truck): real
    requires c.Valid()
  {
    match t.phase
    case Reversing => Docked(c.dockingLength, c.reversingS, t.timer)
    case Dumping | Lowering | Exiting | Returning => c.dockingLength
    case _ => 0.0
  }

  function DockedEmpty(c: Config, t: Truck): real
    requires c.Valid()
  {
    match t.phase
    case Exiting => Docked(c.dockingLength, c.reversingS, t.timer)
    case Returning => c.dockingLength
    case _ => 0.0
  }

  ghost predicate Shows(c: Config, t: Truck, n: Spent)
    requires c.Valid()
  {
    && SameTimes(t.accounting, n)
    && t.accounting.loadedDistance == n.hauled + DockedLoaded(c, t)
    && t.accounting.emptyDistance == n.driven + DockedEmpty(c, t)
  }

  /** A completed trip reports the observer's seconds, and his metres with one docking loaded and one empty. */
  ghost predicate TripShows(c: Config, trip: Trip, n: Spent) {
    && SameTimes(trip.accounting, n)
    && trip.loadedDistance == trip.accounting.loadedDistance == n.hauled + c.dockingLength
    && trip.emptyDistance == trip.accounting.emptyDistance == n.driven + c.dockingLength
  }

  ghost predicate AllTrue(c: Config, t: Truck, trips: seq<Trip>, n: Notes)
    requires c.Valid()
  {
    && Shows(c, t, n.now) && |trips| == |n.done|
    && forall k | 0 <= k < |trips| :: TripShows(c, trips[k], n.done[k])
  }

  lemma MoveIsBooked(c: Config, s: Sweep, i: nat, dt: real, cruise: real, n: Spent)
    requires c.Valid() && SweepOk(c, s) && i < |s.trucks| && dt > 0.0 && cruise >= 0.0
    requires s.trucks[i].phase.Queued? || s.trucks[i].phase.Hauling? || s.trucks[i].phase.Returning?
    requires Shows(c, s.trucks[i], n)
    ensures var u := Advanced(c, s.trucks, i, s.bays, dt, cruise);
            && u.phase == s.trucks[i].phase && u.timer == s.trucks[i].timer
            && Shows(c, u, Seen(n, s.trucks[i].phase, u.distance - s.trucks[i].distance, dt))
  {
    hide MoveLimit, Docked;
    assert TruckOk(c, s.trucks[i]);
    ReachBounds(c, s.trucks[i], cruise, dt);
  }

  lemma ServiceIsBooked(c: Config, t: Truck, dt: real, gone: real, n: Spent)
    requires c.Valid() && dt > 0.0 && TruckOk(c, t) && Timed(c, t) && Shows(c, t, n)
    ensures t.phase.Loading? ==> Shows(c, Loaded(c, t, dt), Seen(n, t.phase, gone, dt))
    ensures AtTip(t.phase) ==> Shows(c, Tipped(c, t, dt), Seen(n, t.phase, gone, dt))
  {
    hide DumpShare, LoadShare, DockStep, Docked, PayloadOk;
    DockingAddsUp(c.dockingLength, c.reversingS, 0.0, dt);
    if t.phase.Reversing? || t.phase.Exiting? {
      DockingAddsUp(c.dockingLength, c.reversingS, t.timer, dt);
    }
  }

  /** The step of a truck books what the observer sees, and the trip it completes is what he has noted. */
  lemma StepIsBooked(c: Config, s: Sweep, i: nat, dt: real, cruise: real, stamp: real, n: Notes)
    requires c.Valid() && SweepOk(c, s) && i < |s.trucks| && dt > 0.0 && cruise >= 0.0 && Timed(c, s.trucks[i])
    requires Shows(c, s.trucks[i], n.now)
    ensures var r, after := StepTruck(c, s, i, dt, cruise, stamp), StepNotes(c, n, s, i, dt, cruise, stamp);
            && Shows(c, r.trucks[i], after.now)
            && (after.done == n.done ==> r.trips == s.trips)
            && (after.done != n.done ==>
                  && |after.done| == |n.done| + 1 && after.done[..|n.done|] == n.done
                  && |r.trips| == |s.trips| + 1 && r.trips[..|s.trips|] == s.trips && r.trips[|s.trips|].truck == i
                  && TripShows(c, r.trips[|s.trips|], after.done[|n.done|]))
  {
    hide Advanced, Tipped, Loaded, Docked, Duration, TruckOk, Seen;
    var t := s.trucks[i];
    assert TruckOk(c, t);
    var u := Advanced(c, s.trucks, i, s.bays, dt, cruise);
    match t.phase
    case Queued | Hauling | Returning =>
      MoveIsBooked(c, s, i, dt, cruise, n.now);
      DockingAddsUp(c.dockingLength, c.reversingS, 0.0, 1.0);
    case _ => ServiceIsBooked(c, t, dt, u.distance - t.distance, n.now);
  }

  // ---------------------------------------------------------------------------
  // Ticks and runs
  // ---------------------------------------------------------------------------

  /** Only its own step completes a trip of truck i. */
  lemma {:induction false} OthersCompleteNothing(
    c: Config, ts: seq<Truck>, k: nat, m: nat, dt: real, cruise: real, stamp: real, log: seq<Trip>, i: nat)
    requires k <= m <= |ts| && dt > 0.0 && AllTimed(c, ts) && (i < k || m <= i)
    ensures TripsOf(log + SweepTo(c, ts, m, dt, cruise, stamp).trips, i)
         == TripsOf(log + SweepTo(c, ts, k, dt, cruise, stamp).trips, i)
  {
    hide StepTruck, TripsOf, Timed;
    if k < m {
      OthersCompleteNothing(c, ts, k, m - 1, dt, cruise, stamp, log, i);
      var s := SweepTo(c, ts, m - 1, dt, cruise, stamp);
      assert SweepTo(c, ts, m, dt, cruise, stamp) == StepTruck(c, s, m - 1, dt, cruise, stamp);
      StepTripsOfOthers(c, s, m - 1, dt, cruise, stamp, log, i);
    }
  }

  lemma TripsStayTrue(c: Config, s: Sweep, r: Sweep, n: Notes, after: Notes, log: seq<Trip>, i: nat)
    requires |TripsOf(log + s.trips, i)| == |n.done|
    requires forall k | 0 <= k < |n.done| :: TripShows(c, TripsOf(log + s.trips, i)[k], n.done[k])
    requires after.done == n.done ==> r.trips == s.trips
    requires after.done != n.done ==>
               && |after.done| == |n.done| + 1 && after.done[..|n.done|] == n.done
               && |r.trips| == |s.trips| + 1 && r.trips[..|s.trips|] == s.trips && r.trips[|s.trips|].truck == i
               && TripShows(c, r.trips[|s.trips|], after.done[|n.done|])
    ensures |TripsOf(log + r.trips, i)| == |after.done|
    ensures forall k | 0 <= k < |after.done| :: TripShows(c, TripsOf(log + r.trips, i)[k], after.done[k])
  {
    hide TripShows, TripsOf;
    if after.done != n.done {
      var trip := r.trips[|s.trips|];
      assert log + r.trips == (log + s.trips) + [trip];
      TripsOfAppend(log + s.trips, trip, i);
      forall k | 0 <= k < |after.done| ensures TripShows(c, TripsOf(log + r.trips, i)[k], after.done[k]) {
        if k < |n.done| {
          assert after.done[k] == after.done[..|n.done|][k];
        }
      }
    }
  }

  lemma DrivingTickIsBooked(c: Config, f: Fleet, tick: Tick, i: nat, n: Notes, log: seq<Trip>)
    requires c.Valid() && FleetOk(c, f) && Drives(tick) && tick.cruise >= 0.0 && i < |f.trucks|
    requires AllTrue(c, f.trucks[i], TripsOf(log, i), n)
    ensures var r := Advance(c, f, tick);
            AllTrue(c, r.0.trucks[i], TripsOf(log + r.1, i), TickNotes(c, n, f, tick, i))
  {
    hide StepTruck, StepNotes, TripsOf, Shows, TripShows, TruckOk, Timed;
    var ts, stamp := f.trucks, StampOf(tick, f.elapsed + tick.dt);
    var s := SweepTo(c, ts, i, tick.dt, tick.cruise, stamp);
    var end := SweepTo(c, ts, |ts|, tick.dt, tick.cruise, stamp);
    assert Advance(c, f, tick) == (Fleet(end.trucks, f.elapsed + tick.dt), end.trips);
    SweepAt(c, ts, i, tick.dt, tick.cruise, stamp);
    var r, after := StepTruck(c, s, i, tick.dt, tick.cruise, stamp), StepNotes(c, n, s, i, tick.dt, tick.cruise, stamp);
    StepIsBooked(c, s, i, tick.dt, tick.cruise, stamp, n);
    OthersCompleteNothing(c, ts, 0, i, tick.dt, tick.cruise, stamp, log, i);
    OthersCompleteNothing(c, ts, i + 1, |ts|, tick.dt, tick.cruise, stamp, log, i);
    assert log + [] == log;
    TripsStayTrue(c, s, r, n, after, log, i);
  }

  lemma IdleTickIsBooked(c: Config, f: Fleet, tick: Tick, i: nat, n: Notes, log: seq<Trip>)
    requires c.Valid() && FleetOk(c, f) && !Drives(tick) && i < |f.trucks|
    requires AllTrue(c, f.trucks[i], TripsOf(log, i), n)
    ensures var r := Advance(c, f, tick);
            AllTrue(c, r.0.trucks[i], TripsOf(log + r.1, i), TickNotes(c, n, f, tick, i))
  {
    hide SweepTo, TripsOf, TripShows, Docked, TruckOk;
    assert log + [] == log;
  }

  /** In every reachable state each of the five columns is the time so spent, the metres are those driven loaded and
      empty, and every completed trip reports the seconds and metres of its own cycle. */
  lemma {:induction false} ColumnsAreTrue(c: Config, numbers: seq<int>, ticks: seq<Tick>, i: nat)
    requires c.Valid() && QueueFits(c, |numbers|) && DrivesForward(ticks) && i < |numbers|
    ensures var r := Run(c, numbers, ticks);
            AllTrue(c, r.0.trucks[i], TripsOf(r.1, i), RunNotes(c, numbers, ticks, i))
  {
    hide AllTrue, Advance, TickNotes, FleetOk, TripsOf;
    if ticks == [] {
      NothingBookedYet(c, numbers, i);
    } else {
      var last := |ticks| - 1;
      var before, n := Run(c, numbers, ticks[..last]), RunNotes(c, numbers, ticks[..last], i);
      ColumnsAreTrue(c, numbers, ticks[..last], i);
      if Drives(ticks[last]) {
        DrivingTickIsBooked(c, before.0, ticks[last], i, n, before.1);
      } else {
        IdleTickIsBooked(c, before.0, ticks[last], i, n, before.1);
      }
    }
  }

  lemma NothingBookedYet(c: Config, numbers: seq<int>, i: nat)
    requires c.Valid() && QueueFits(c, |numbers|) && i < |numbers|
    ensures AllTrue(c, Run(c, numbers, []).0.trucks[i], TripsOf(Run(c, numbers, []).1, i), Notes(NOTHING, []))
  {
  }
}
