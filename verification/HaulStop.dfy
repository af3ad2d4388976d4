/** The loading stop: loaded trucks leave it one at a time, and take turns in cyclic order of their numbers. */
module HaulStop {
  import opened HaulModel
  import opened HaulInvariants
  import opened HaulTraffic
  import opened HaulProgress
  import opened HaulThroughput

  /** The stops are further apart, and the queue spacing larger, than the slack of a stop. */
  ghost predicate Roomy(c: Config) { TOL < c.dump && c.dump + TOL < c.total && TOL < c.queueSpacing }

  /** The truck is loaded and has not left the loading stop. */
  predicate AtLoadingStop(t: Truck) { t.phase.Hauling? && t.distance == 0.0 }

  /** The truck has left the loading stop and still shuts it for the next one. */
  predicate Near(c: Config, t: Truck) { 0.0 < t.distance <= Min(c.dump, c.queueSpacing) }

  predicate Shut(c: Config, ts: seq<Truck>) { exists b | 0 <= b < |ts| :: Near(c, ts[b]) }

  /** At most one truck shuts the stop. */
  ghost predicate SingleFile(c: Config, ts: seq<Truck>) {
    forall a, b | 0 <= a < |ts| && 0 <= b < |ts| && Near(c, ts[a]) && Near(c, ts[b]) :: a == b
  }

  lemma OkMeansPlanned(c: Config, ts: seq<Truck>, i: nat)
    requires c.Valid() && TrucksOk(c, ts) && i < |ts|
    ensures TruckOk(c, ts[i]) && ts[i].plan.Valid() && InRegion(c, ts[i])
  {
  }

  // ---------------------------------------------------------------------------
  // One truck, one tick
  // ---------------------------------------------------------------------------

  /** When the tipping bay is spoken for, some truck that will not move any more in this tick stands at the tip. */
  ghost predicate TipMarked(c: Config, s: Sweep, k: nat) {
    s.bays.tipping ==>
      exists j | 0 <= j < |s.trucks| ::
        (AtTip(s.trucks[j].phase) || j < k) && c.dump - TOL <= s.trucks[j].distance <= c.dump
  }

  lemma StepTipPlace(c: Config, s: Sweep, i: nat, dt: real, cruise: real, stamp: real)
    requires c.Valid() && i < |s.trucks| && dt > 0.0 && cruise >= 0.0 && SweepOk(c, s) && Timed(c, s.trucks[i])
    ensures var t, r := s.trucks[i], StepTruck(c, s, i, dt, cruise, stamp);
            && (AtTip(t.phase) ==> r.trucks[i].distance == t.distance)
            && (r.bays.tipping && !s.bays.tipping ==> c.dump - TOL <= r.trucks[i].distance <= c.dump)
  {
    hide MoveLimit, Reach, LoadShare, DumpShare, Duration;
    DistancesBounded(c, s.trucks);
    OkMeansPlanned(c, s.trucks, i);
    AdvancedInBounds(c, s.trucks, i, s.bays, dt, cruise);
  }

  lemma StepKeepsTipMarked(c: Config, s: Sweep, i: nat, dt: real, cruise: real, stamp: real)
    requires c.Valid() && i < |s.trucks| && dt > 0.0 && cruise >= 0.0 && SweepOk(c, s) && Timed(c, s.trucks[i])
    requires TipMarked(c, s, i)
    ensures TipMarked(c, StepTruck(c, s, i, dt, cruise, stamp), i + 1)
  {
    hide StepTruck, TruckOk;
    StepPhases(c, s, i, dt, cruise, stamp);
    StepTipPlace(c, s, i, dt, cruise, stamp);
    var r := StepTruck(c, s, i, dt, cruise, stamp);
    if s.bays.tipping {
      var j :| && 0 <= j < |s.trucks| && (AtTip(s.trucks[j].phase) || j < i)
               && c.dump - TOL <= s.trucks[j].distance <= c.dump;
      assert r.trucks[j].distance == s.trucks[j].distance;
    }
  }

  /** A loaded truck at an open stop leaves it, at a shut stop stays; no other truck comes to shut the stop. */
  lemma StepAtStop(c: Config, s: Sweep, i: nat, dt: real, cruise: real, stamp: real)
    requires c.Valid() && Roomy(c) && c.groups == [] && SweepOk(c, s) && i < |s.trucks| && dt > 0.0 && cruise > 0.0
    requires Timed(c, s.trucks[i]) && TipMarked(c, s, i)
    ensures var t, u := s.trucks[i], StepTruck(c, s, i, dt, cruise, stamp).trucks[i];
            && (!AtLoadingStop(t) && !Near(c, t) ==> !Near(c, u))
            && (AtLoadingStop(t) ==> if Shut(c, s.trucks) then AtLoadingStop(u) else u.distance > 0.0)
  {
    hide LoadShare, DumpShare, Duration, Reach;
    var t := s.trucks[i];
    DistancesBounded(c, s.trucks);
    OkMeansPlanned(c, s.trucks, i);
    StepMovesForward(c, s, i, dt, cruise, stamp);
    ReachPositive(c, t, cruise, dt);
    if AtLoadingStop(t) {
      StopLimit(c, s, i);
    }
  }

  /** Where the tip is no further than the queue spacing, a truck there shuts the stop. */
  lemma TipShuts(c: Config, s: Sweep, k: nat)
    requires Roomy(c) && TipMarked(c, s, k) && s.bays.tipping
    ensures c.dump <= c.queueSpacing ==> Shut(c, s.trucks)
  {
    var j :| 0 <= j < |s.trucks| && c.dump - TOL <= s.trucks[j].distance <= c.dump;
    assert c.dump <= c.queueSpacing ==> Near(c, s.trucks[j]);
  }

  lemma StopLimit(c: Config, s: Sweep, i: nat)
    requires c.Valid() && Roomy(c) && c.groups == [] && SweepOk(c, s) && i < |s.trucks|
    requires TipMarked(c, s, i) && AtLoadingStop(s.trucks[i])
    ensures Shut(c, s.trucks) <==> MoveLimit(c, s.trucks, i, s.bays) <= 0.0
  {
    hide TruckOk;
    if s.bays.tipping {
      TipShuts(c, s, i);
    }
    var ts := s.trucks;
    if b :| 0 <= b < |ts| && Near(c, ts[b]) {
      assert IsAhead(c, ts, i, b);
      AheadLimits(c, ts, i, s.bays, b);
    } else {
      var ahead := NearestAhead(c, ts, i, |ts|);
      if ahead.Some? {
        var j :| 0 <= j < |ts| && IsAhead(c, ts, i, j) && ts[j].distance == ahead.value;
        assert !Near(c, ts[j]);
      }
    }
  }

  // ---------------------------------------------------------------------------
  // A tick
  // ---------------------------------------------------------------------------

  /** The truck that shuts the stop, -1 when it is open. */
  ghost function Closer(c: Config, ts: seq<Truck>): (b: int)
    ensures -1 <= b < |ts|
    ensures b >= 0 ==> Near(c, ts[b])
    ensures b < 0 ==> !Shut(c, ts)
  {
    if Shut(c, ts) then
      var b :| 0 <= b < |ts| && Near(c, ts[b]); b
    else -1
  }

  predicate Leaves(t: Truck, u: Truck) { AtLoadingStop(t) && u.distance > 0.0 }

  /** After the first k updates of a tick that found the stop shut by e: either e still shuts it and none has left,
      or all that have left come after e, up to the one that shuts it now. */
  ghost predicate InTurn(c: Config, ts: seq<Truck>, us: seq<Truck>, e: int, k: nat)
    requires |us| == |ts| && k <= |ts|
  {
    var w := Closer(c, us);
    && SingleFile(c, us)
    && (w == e || (e < k && (w < 0 || e < w < k)))
    && forall j | 0 <= j < k && Leaves(ts[j], us[j]) :: e < j && (w < 0 || (w != e && j <= w))
  }

  lemma AtStopIsNotNear(c: Config, t: Truck)
    requires AtLoadingStop(t)
    ensures !Near(c, t)
  {
  }

  lemma CloserIs(c: Config, ts: seq<Truck>, b: nat)
    requires SingleFile(c, ts) && b < |ts| && Near(c, ts[b])
    ensures Closer(c, ts) == b
  {
  }

  /** The update of one truck keeps the turns. */
  lemma StepInTurn(c: Config, ts: seq<Truck>, s: Sweep, e: int, k: nat, dt: real, cruise: real, stamp: real)
    requires c.Valid() && Roomy(c) && c.groups == [] && SweepOk(c, s) && dt > 0.0 && cruise > 0.0
    requires k < |ts| == |s.trucks| && s.trucks[k] == ts[k] && Timed(c, ts[k]) && TipMarked(c, s, k)
    requires InTurn(c, ts, s.trucks, e, k) && (e >= k ==> Near(c, ts[e]))
    ensures InTurn(c, ts, StepTruck(c, s, k, dt, cruise, stamp).trucks, e, k + 1)
  {
    hide StepTruck, SweepOk, TipMarked, Near, Timed;
    var r := StepTruck(c, s, k, dt, cruise, stamp);
    StepPhases(c, s, k, dt, cruise, stamp);
    StepAtStop(c, s, k, dt, cruise, stamp);
    var us, vs := s.trucks, r.trucks;
    var w := Closer(c, us);
    assert forall a | 0 <= a < |us| && Near(c, us[a]) :: a == w;
    assert forall a | 0 <= a < |us| && a != k :: vs[a] == us[a];
    if w >= 0 && w != k {
      assert Shut(c, us) && Near(c, vs[w]);
      assert !Near(c, vs[k]) by {
        if AtLoadingStop(vs[k]) {
          AtStopIsNotNear(c, vs[k]);
        }
      }
      CloserIs(c, vs, w);
    } else if Near(c, vs[k]) {
      CloserIs(c, vs, k);
    }
  }

  lemma {:induction false} SweepInTurn(c: Config, ts: seq<Truck>, k: nat, dt: real, cruise: real, stamp: real)
    requires c.Valid() && Roomy(c) && c.groups == [] && TrucksOk(c, ts) && BaysExclusive(ts) && SingleFile(c, ts)
    requires k <= |ts| && dt > 0.0 && cruise > 0.0 && AllTimed(c, ts)
    ensures InTurn(c, ts, SweepTo(c, ts, k, dt, cruise, stamp).trucks, Closer(c, ts), k)
    ensures TipMarked(c, SweepTo(c, ts, k, dt, cruise, stamp), k)
    decreases k
  {
    hide StepTruck, InTurn, TruckOk;
    if k == 0 {
      StartsInTurn(c, ts);
      assert SweepTo(c, ts, 0, dt, cruise, stamp) == Sweep(ts, BaysAt(ts), []);
    } else {
      SweepInTurn(c, ts, k - 1, dt, cruise, stamp);
      SweepAt(c, ts, k - 1, dt, cruise, stamp);
      var s := SweepTo(c, ts, k - 1, dt, cruise, stamp);
      StepInTurn(c, ts, s, Closer(c, ts), k - 1, dt, cruise, stamp);
      StepKeepsTipMarked(c, s, k - 1, dt, cruise, stamp);
    }
  }

  lemma StartsInTurn(c: Config, ts: seq<Truck>)
    requires c.Valid() && TrucksOk(c, ts) && SingleFile(c, ts)
    ensures InTurn(c, ts, ts, Closer(c, ts), 0)
    ensures TipMarked(c, Sweep(ts, BaysAt(ts), []), 0)
  {
    hide LoadShare, DumpShare, Duration;
    if j :| 0 <= j < |ts| && AtTip(ts[j].phase) {
      OkMeansPlanned(c, ts, j);
    }
  }

  /** Where truck j comes in the order of updates that starts behind truck x, with room for nobody after the last. */
  function Place(x: nat, n: nat, j: int): int {
    if j < 0 then n - x else if j > x then j - x else n - x + 1 + j
  }

  /** While x stays at the stop, the turn to shut it only goes on, through every truck that leaves. */
  lemma TurnGoesOn(c: Config, f: Fleet, tick: Tick, x: nat)
    requires c.Valid() && Roomy(c) && c.groups == [] && FleetOk(c, f) && SingleFile(c, f.trucks)
    requires Drives(tick) && tick.cruise > 0.0 && x < |f.trucks|
    requires AtLoadingStop(f.trucks[x]) && AtLoadingStop(Advance(c, f, tick).0.trucks[x])
    ensures var n, us := |f.trucks|, Advance(c, f, tick).0.trucks;
            var e, w := Closer(c, f.trucks), Closer(c, us);
            && SingleFile(c, us)
            && Place(x, n, e) <= Place(x, n, w) && (Place(x, n, e) == Place(x, n, w) ==> e == w >= 0)
            && forall y | 0 <= y < n && Leaves(f.trucks[y], us[y]) :: Place(x, n, e) < Place(x, n, y) <= Place(x, n, w)
  {
    hide StepTruck, TruckOk, TipMarked, Near;
    var ts, stamp := f.trucks, StampOf(tick, f.elapsed + tick.dt);
    var s := SweepTo(c, ts, x, tick.dt, tick.cruise, stamp);
    var us := SweepTo(c, ts, |ts|, tick.dt, tick.cruise, stamp).trucks;
    assert us == Advance(c, f, tick).0.trucks;
    SweepInTurn(c, ts, x, tick.dt, tick.cruise, stamp);
    SweepInTurn(c, ts, |ts|, tick.dt, tick.cruise, stamp);
    SweepAt(c, ts, x, tick.dt, tick.cruise, stamp);
    StepAtStop(c, s, x, tick.dt, tick.cruise, stamp);
    var b := Closer(c, s.trucks);
    assert !Near(c, ts[x]) by { AtStopIsNotNear(c, ts[x]); }
    if b < x {
      SweepSettles(c, ts, x, |ts|, tick.dt, tick.cruise, stamp, b);
      CloserIs(c, us, b);
    }
  }

  // ---------------------------------------------------------------------------
  // Runs
  // ---------------------------------------------------------------------------

  /** Every tick that drives does so at some speed. */
  ghost predicate Moving(ticks: seq<Tick>) {
    forall k | 0 <= k < |ticks| :: Drives(ticks[k]) ==> ticks[k].cruise > 0.0
  }

  lemma TickKeepsSingleFile(c: Config, f: Fleet, tick: Tick)
    requires c.Valid() && Roomy(c) && c.groups == [] && FleetOk(c, f) && SingleFile(c, f.trucks)
    requires Drives(tick) ==> tick.cruise > 0.0
    ensures SingleFile(c, Advance(c, f, tick).0.trucks)
  {
    hide StepTruck, SweepTo, TruckOk, TipMarked, Near;
    if Drives(tick) {
      SweepInTurn(c, f.trucks, |f.trucks|, tick.dt, tick.cruise, StampOf(tick, f.elapsed + tick.dt));
    } else {
      PauseKeepsStop(c, f, tick);
    }
  }

  lemma PauseKeepsStop(c: Config, f: Fleet, tick: Tick)
    requires c.Valid() && FleetOk(c, f) && !Drives(tick)
    ensures var us := Advance(c, f, tick).0.trucks;
            && (forall j | 0 <= j < |f.trucks| ::
                  (Near(c, us[j]) <==> Near(c, f.trucks[j])) && !Leaves(f.trucks[j], us[j]))
            && (SingleFile(c, f.trucks) ==> SingleFile(c, us) && Closer(c, us) == Closer(c, f.trucks))
  {
    hide Advance, FleetOk;
    FleetIsTimed(c, f);
    PauseKeepsPlaces(c, f, tick);
    var us := Advance(c, f, tick).0.trucks;
    assert forall j | 0 <= j < |f.trucks| :: SamePlace(f.trucks[j], us[j]);
    if SingleFile(c, f.trucks) && Closer(c, us) >= 0 {
      CloserIs(c, f.trucks, Closer(c, us));
    }
  }

  /** Loaded trucks leave one at a time: at most one of them shuts the stop, after any ticks. */
  lemma {:induction false} AfterInSingleFile(c: Config, f: Fleet, ticks: seq<Tick>)
    requires c.Valid() && Roomy(c) && c.groups == [] && FleetOk(c, f) && SingleFile(c, f.trucks)
    requires DrivesForward(ticks) && Moving(ticks)
    ensures SingleFile(c, After(c, f, ticks).trucks)
    decreases |ticks|
  {
    hide FleetOk, SingleFile, Advance;
    if ticks != [] {
      AfterInSingleFile(c, f, ticks[..|ticks| - 1]);
      TickKeepsSingleFile(c, After(c, f, ticks[..|ticks| - 1]), ticks[|ticks| - 1]);
    }
  }

  lemma SpotsDiffer(spacing: real, a: nat, b: nat)
    requires spacing > 0.0 && a as real * spacing == b as real * spacing
    ensures a == b
  {
    assert (a - b) as real * spacing == a as real * spacing - b as real * spacing;
  }

  /** Only the end of the queue can start that near, at the tip. */
  lemma NearAtStart(c: Config, numbers: seq<int>, a: nat)
    requires c.Valid() && QueueFits(c, |numbers|) && a < |numbers| && Near(c, StartingFleet(c, numbers).trucks[a])
    ensures a as real * c.queueSpacing == c.total - c.dump
  {
    QueuePosition(c, |numbers|, a);
  }

  lemma StartsInSingleFile(c: Config, numbers: seq<int>)
    requires c.Valid() && QueueFits(c, |numbers|)
    ensures SingleFile(c, StartingFleet(c, numbers).trucks)
  {
    hide Near, StartingFleet, QueueFits;
    var ts := StartingFleet(c, numbers).trucks;
    assert |ts| == |numbers| by {
      StartingFleetWork(c, numbers);
    }
    forall a: nat, b: nat | a < |ts| && b < |ts| && Near(c, ts[a]) && Near(c, ts[b]) ensures a == b {
      NearAtStart(c, numbers, a);
      NearAtStart(c, numbers, b);
      SpotsDiffer(c.queueSpacing, a, b);
    }
  }

  /** After the first n ticks truck x waits loaded at the stop. */
  ghost predicate WaitsAt(c: Config, f: Fleet, ticks: seq<Tick>, x: nat, n: nat)
    requires c.Valid() && FleetOk(c, f) && DrivesForward(ticks) && x < |f.trucks| && n <= |ticks|
  {
    AtLoadingStop(After(c, f, ticks[..n]).trucks[x])
  }

  /** All along, truck x waits loaded at the stop. */
  ghost predicate Waits(c: Config, f: Fleet, ticks: seq<Tick>, x: nat)
    requires c.Valid() && FleetOk(c, f) && DrivesForward(ticks) && x < |f.trucks|
  {
    forall n: nat | n <= |ticks| :: WaitsAt(c, f, ticks, x, n)
  }

  lemma WaitsBefore(c: Config, f: Fleet, ticks: seq<Tick>, x: nat, m: nat)
    requires c.Valid() && FleetOk(c, f) && DrivesForward(ticks) && x < |f.trucks| && Waits(c, f, ticks, x) && m <= |ticks|
    ensures Waits(c, f, ticks[..m], x) && AtLoadingStop(After(c, f, ticks[..m]).trucks[x])
  {
    hide After, FleetOk;
    assert WaitsAt(c, f, ticks, x, m);
    forall n: nat | n <= m ensures WaitsAt(c, f, ticks[..m], x, n) {
      assert WaitsAt(c, f, ticks, x, n) && ticks[..m][..n] == ticks[..n];
    }
  }

  /** How often truck y leaves the loading stop. */
  ghost function Departures(c: Config, f: Fleet, ticks: seq<Tick>, y: nat): nat
    requires c.Valid() && FleetOk(c, f) && DrivesForward(ticks) && y < |f.trucks|
    decreases |ticks|
  {
    if ticks == [] then 0
    else
      var init := ticks[..|ticks| - 1];
      Departures(c, f, init, y) + if Leaves(After(c, f, init).trucks[y], After(c, f, ticks).trucks[y]) then 1 else 0
  }

  /** While truck x waits at the stop the turn goes on, and every truck that leaves in the meantime has had its turn. */
  lemma {:induction false} TurnsGoOn(c: Config, f: Fleet, ticks: seq<Tick>, x: nat, y: nat)
    requires c.Valid() && Roomy(c) && c.groups == [] && FleetOk(c, f) && SingleFile(c, f.trucks)
    requires DrivesForward(ticks) && Moving(ticks) && x < |f.trucks| && y < |f.trucks| && Waits(c, f, ticks, x)
    ensures var n, us := |f.trucks|, After(c, f, ticks).trucks;
            var e, w := Closer(c, f.trucks), Closer(c, us);
            && SingleFile(c, us) && Place(x, n, e) <= Place(x, n, w)
            && (Place(x, n, e) == Place(x, n, w) ==> e == w && (Driving(ticks) > 0 ==> e >= 0))
            && Departures(c, f, ticks, y) <= 1
            && (Departures(c, f, ticks, y) == 1 ==> Place(x, n, e) < Place(x, n, y) <= Place(x, n, w))
    decreases |ticks|
  {
    hide FleetOk, SingleFile, Advance, Closer, Leaves;
    AfterInSingleFile(c, f, ticks);
    if ticks != [] {
      var init, last := ticks[..|ticks| - 1], ticks[|ticks| - 1];
      WaitsBefore(c, f, ticks, x, |ticks| - 1);
      assert ticks[..|ticks|] == ticks;
      WaitsBefore(c, f, ticks, x, |ticks|);
      TurnsGoOn(c, f, init, x, y);
      var before := After(c, f, init);
      if Drives(last) {
        TurnGoesOn(c, before, last, x);
      } else {
        PauseKeepsStop(c, before, last);
      }
    }
  }

  /** While a loaded truck waits at the stop, every other truck leaves it at most once. */
  lemma PassesOnce(c: Config, numbers: seq<int>, ticks: seq<Tick>, m: nat, x: nat, y: nat)
    requires c.Valid() && Roomy(c) && c.groups == [] && QueueFits(c, |numbers|) && x < |numbers| && y < |numbers|
    requires DrivesForward(ticks) && Moving(ticks) && m <= |ticks|
    requires Waits(c, Run(c, numbers, ticks[..m]).0, ticks[m..], x)
    ensures SingleFile(c, Run(c, numbers, ticks).0.trucks)
    ensures Departures(c, Run(c, numbers, ticks[..m]).0, ticks[m..], y) <= 1
  {
    hide FleetOk, SingleFile, Advance, Closer, Leaves, Run, After, StartingFleet, Waits, Departures;
    var f := StartingFleet(c, numbers);
    StartingFleetWork(c, numbers);
    StartsInSingleFile(c, numbers);
    RunIsAfter(c, numbers, ticks);
    RunIsAfter(c, numbers, ticks[..m]);
    AfterInSingleFile(c, f, ticks);
    AfterInSingleFile(c, f, ticks[..m]);
    TurnsGoOn(c, After(c, f, ticks[..m]), ticks[m..], x, y);
  }
}
