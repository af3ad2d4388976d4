/** Throughput: a fleet without conflict zones that keeps ticking delivers any number
    of trips, within a bound that its pace, its service times and its size give. */
module HaulThroughput {
  import opened Options
  import opened HaulModel
  import opened HaulInvariants
  import opened HaulTraffic
  import opened HaulProgress

  // ---------------------------------------------------------------------------
  // Pace
  // ---------------------------------------------------------------------------

  /** The plan of a truck is the configured one of its trip. */
  ghost predicate OnPlan(c: Config, ts: seq<Truck>) {
    forall i: nat | i < |ts| :: ts[i].plan == c.plans(i, ts[i].tripNumber)
  }

  /** No service of any plan takes longer. */
  ghost predicate ServiceWithin(c: Config, service: real) {
    forall i: nat, n: int, p: Phase :: Duration(c, c.plans(i, n), p) <= service
  }

  /** A running tick of at least `beat` seconds that takes a free truck on any plan at least `pace` metres. */
  ghost predicate Steady(c: Config, tick: Tick, pace: real, beat: real) {
    && tick.Counts() && !tick.emergencyStopped && tick.cruise > 0.0 && tick.dt >= beat
    && forall t: Truck, i: nat, n: int | t.plan == c.plans(i, n) :: Reach(c, t, tick.cruise, tick.dt) >= pace
  }

  /** The tick moves the fleet: it is neither a pause nor an emergency stop. */
  predicate Drives(tick: Tick) { tick.Counts() && !tick.emergencyStopped }

  /** How many of the ticks drive. */
  function Driving(ticks: seq<Tick>): nat {
    if ticks == [] then 0 else Driving(ticks[..|ticks| - 1]) + if Drives(ticks[|ticks| - 1]) then 1 else 0
  }

  /** Every tick that drives keeps the pace; pauses and emergency stops may come in between. */
  ghost predicate AllSteady(c: Config, ticks: seq<Tick>, pace: real, beat: real) {
    forall k | 0 <= k < |ticks| && Drives(ticks[k]) :: Steady(c, ticks[k], pace, beat)
  }

  /** Bounds on speed scale, turn speed, cruise and tick length are enough for a pace. */
  lemma PaceFromBounds(c: Config, tick: Tick, slowest: real, sharpest: real, cruise: real, beat: real)
    requires c.Valid() && slowest > 0.0 && sharpest > 0.0 && cruise > 0.0 && beat > 0.0
    requires forall i: nat, n: int :: c.plans(i, n).speedScale >= slowest
    requires forall d :: c.turnCap(d).Some? ==> c.turnCap(d).value >= sharpest
    requires tick.Counts() && !tick.emergencyStopped && tick.cruise >= cruise && tick.dt >= beat
    ensures Min(cruise * slowest, sharpest) * beat > 0.0
    ensures Steady(c, tick, Min(cruise * slowest, sharpest) * beat, beat)
  {
    hide Reach, Min;
    var pace := Min(cruise * slowest, sharpest) * beat;
    SlowestIsPositive(cruise, slowest, sharpest, beat);
    forall t: Truck, i: nat, n: int | t.plan == c.plans(i, n) ensures Reach(c, t, tick.cruise, tick.dt) >= pace {
      assert c.plans(i, n).speedScale >= slowest;
      SlowestReach(c, t, tick, slowest, sharpest, cruise, beat);
    }
  }

  lemma SlowestIsPositive(cruise: real, slowest: real, sharpest: real, beat: real)
    requires slowest > 0.0 && sharpest > 0.0 && cruise > 0.0 && beat > 0.0
    ensures Min(cruise * slowest, sharpest) * beat > 0.0
  {
    ProductsGrow(cruise, cruise, slowest, slowest);
    ProductsGrow(0.0, Min(cruise * slowest, sharpest), beat, beat);
  }

  lemma SlowestReach(c: Config, t: Truck, tick: Tick, slowest: real, sharpest: real, cruise: real, beat: real)
    requires slowest > 0.0 && sharpest > 0.0 && cruise > 0.0 && beat > 0.0
    requires t.plan.speedScale >= slowest && tick.cruise >= cruise && tick.dt >= beat
    requires c.turnCap(t.distance).Some? ==> c.turnCap(t.distance).value >= sharpest
    ensures Reach(c, t, tick.cruise, tick.dt) >= Min(cruise * slowest, sharpest) * beat
  {
    ProductsGrow(cruise, cruise, slowest, slowest);
    ProductsGrow(cruise, tick.cruise, slowest, t.plan.speedScale);
    var planned := tick.cruise * t.plan.speedScale;
    var allowed := match c.turnCap(t.distance) case None => planned case Some(cap) => Min(planned, cap);
    ProductsGrow(Min(cruise * slowest, sharpest), allowed, beat, tick.dt);
  }

  lemma ProductsGrow(a: real, b: real, x: real, y: real)
    requires 0.0 <= a <= b && 0.0 < x <= y
    ensures a * x <= b * y
    ensures b > 0.0 ==> b * y > 0.0
  {
    assert a * x <= b * x;
    assert b * x <= b * y;
  }

  // ---------------------------------------------------------------------------
  // Work
  // ---------------------------------------------------------------------------

  /** How many phases the truck has entered. */
  function Work(t: Truck): int { 8 * t.cycle + Rank(t.phase) }

  function TotalWork(ts: seq<Truck>): int {
    if ts == [] then 0 else TotalWork(ts[..|ts| - 1]) + Work(ts[|ts| - 1])
  }

  lemma GoingOnIsWork(t: Truck, u: Truck)
    requires Further(t, u) || SamePlace(t, u)
    ensures Work(t) <= Work(u)
    ensures Work(t) == Work(u) ==> t.phase == u.phase && t.cycle == u.cycle
  {
    if t.cycle == u.cycle && Rank(t.phase) == Rank(u.phase) {
      RankDecides(t.phase, u.phase);
    }
  }

  lemma {:induction false} MoreWork(ts: seq<Truck>, us: seq<Truck>)
    requires |ts| == |us| && forall i | 0 <= i < |ts| :: Work(ts[i]) <= Work(us[i])
    ensures TotalWork(ts) <= TotalWork(us)
    ensures TotalWork(ts) == TotalWork(us) ==> forall i | 0 <= i < |ts| :: Work(ts[i]) == Work(us[i])
    decreases |ts|
  {
    hide Work;
    if ts != [] {
      var a, b := ts[..|ts| - 1], us[..|us| - 1];
      MoreWork(a, b);
      assert forall i | 0 <= i < |a| :: a[i] == ts[i] && b[i] == us[i];
    }
  }

  /** The tick left every truck in its phase. */
  ghost predicate Stalled(ts: seq<Truck>, us: seq<Truck>) {
    |ts| == |us| && forall i | 0 <= i < |ts| :: us[i].phase == ts[i].phase && us[i].cycle == ts[i].cycle
  }

  lemma TickAddsWork(c: Config, f: Fleet, tick: Tick)
    requires c.Valid() && c.groups == [] && FleetOk(c, f) && f.trucks != []
    requires tick.Counts() && !tick.emergencyStopped && tick.cruise > 0.0
    ensures var us := Advance(c, f, tick).0.trucks;
            TotalWork(f.trucks) <= TotalWork(us) && (TotalWork(f.trucks) == TotalWork(us) ==> Stalled(f.trucks, us))
  {
    hide Further, SamePlace, Work, TrucksOk;
    var r := Advance(c, f, tick).0;
    NoDeadlock(c, f, tick);
    forall i | 0 <= i < |f.trucks|
      ensures Work(f.trucks[i]) <= Work(r.trucks[i])
      ensures Work(f.trucks[i]) == Work(r.trucks[i]) ==>
                r.trucks[i].phase == f.trucks[i].phase && r.trucks[i].cycle == f.trucks[i].cycle
    {
      GoingOnIsWork(f.trucks[i], r.trucks[i]);
    }
    MoreWork(f.trucks, r.trucks);
  }

  // ---------------------------------------------------------------------------
  // What a tick gains while every truck stays in its phase
  // ---------------------------------------------------------------------------

  /** A truck in service that stays in its phase is served on. */
  lemma ServiceGains(c: Config, s: Sweep, i: nat, dt: real, cruise: real, stamp: real)
    requires i < |s.trucks| && dt > 0.0 && Timed(c, s.trucks[i]) && InService(s.trucks[i])
    requires StepTruck(c, s, i, dt, cruise, stamp).trucks[i].phase == s.trucks[i].phase
    ensures StepTruck(c, s, i, dt, cruise, stamp).trucks[i].timer == s.trucks[i].timer + dt
  {
    hide LoadShare, DumpShare, Duration, DockStep;
  }

  /** With both bays free the furthest truck goes its full reach, or enters the next phase. */
  lemma LeaderGains(c: Config, s: Sweep, i: nat, dt: real, cruise: real, stamp: real)
    requires c.Valid() && c.groups == [] && SweepOk(c, s) && i < |s.trucks| && dt > 0.0 && cruise > 0.0
    requires Timed(c, s.trucks[i]) && !s.bays.loading && !s.bays.tipping && !InService(s.trucks[i])
    requires forall j | 0 <= j < |s.trucks| :: s.trucks[j].distance <= s.trucks[i].distance
    requires StepTruck(c, s, i, dt, cruise, stamp).trucks[i].phase == s.trucks[i].phase
    ensures StepTruck(c, s, i, dt, cruise, stamp).trucks[i].distance >= s.trucks[i].distance + Reach(c, s.trucks[i], cruise, dt)
  {
    hide Reach, LoadShare, DumpShare, Duration;
    var t := s.trucks[i];
    assert TruckOk(c, t);
    assert MoveLimit(c, s.trucks, i, s.bays) == RoadEnd(c, t.phase);
    ReachPositive(c, t, cruise, dt);
  }

  /** A free bay stays free until some truck changes its phase. */
  lemma {:induction false} BaysStayFree(c: Config, ts: seq<Truck>, k: nat, dt: real, cruise: real, stamp: real)
    requires k <= |ts| && dt > 0.0 && AllTimed(c, ts) && !SomeLoading(ts) && !SomeTipping(ts)
    requires forall j | 0 <= j < k :: SweepTo(c, ts, k, dt, cruise, stamp).trucks[j].phase == ts[j].phase
    ensures var s := SweepTo(c, ts, k, dt, cruise, stamp); !s.bays.loading && !s.bays.tipping
    decreases k
  {
    hide StepTruck, Timed;
    if k > 0 {
      var s := SweepTo(c, ts, k - 1, dt, cruise, stamp);
      StepPhases(c, s, k - 1, dt, cruise, stamp);
      BaysStayFree(c, ts, k - 1, dt, cruise, stamp);
      assert s.trucks[k - 1] == ts[k - 1] && !ts[k - 1].phase.Loading? && !AtTip(ts[k - 1].phase);
      BayTakenShows(c, s, k - 1, dt, cruise, stamp);
    }
  }

  lemma BayTakenShows(c: Config, s: Sweep, i: nat, dt: real, cruise: real, stamp: real)
    requires i < |s.trucks| && dt > 0.0 && Timed(c, s.trucks[i])
    ensures var r := StepTruck(c, s, i, dt, cruise, stamp);
            && (r.bays.loading && !s.bays.loading ==> r.trucks[i].phase.Loading?)
            && (r.bays.tipping && !s.bays.tipping ==> AtTip(r.trucks[i].phase))
  {
    hide MoveLimit, Reach, LoadShare, DumpShare, Duration;
  }

  /** The first of the furthest trucks. */
  lemma FirstFurthest(ts: seq<Truck>) returns (i: nat)
    requires ts != []
    ensures i < |ts| && forall j | 0 <= j < |ts| :: ts[j].distance <= ts[i].distance
    ensures forall j | 0 <= j < i :: ts[j].distance < ts[i].distance
  {
    i := 0;
    for k := 0 to |ts|
      invariant i < |ts| && (if k == 0 then i == 0 else i < k)
      invariant forall j | 0 <= j < k :: ts[j].distance <= ts[i].distance
      invariant forall j | 0 <= j < i :: ts[j].distance < ts[i].distance
    {
      if ts[i].distance < ts[k].distance {
        i := k;
      }
    }
  }

  /** Either some truck in service is served for the whole tick, or the furthest truck goes its full reach. */
  lemma StalledTickGains(c: Config, f: Fleet, tick: Tick) returns (i: nat)
    requires c.Valid() && c.groups == [] && FleetOk(c, f) && f.trucks != []
    requires tick.Counts() && !tick.emergencyStopped && tick.cruise > 0.0
    requires Stalled(f.trucks, Advance(c, f, tick).0.trucks)
    ensures i < |f.trucks|
    ensures var us := Advance(c, f, tick).0.trucks;
            && (forall j | 0 <= j < |f.trucks| && InService(f.trucks[j]) :: us[j].timer == f.trucks[j].timer + tick.dt)
            && ((forall j | 0 <= j < |f.trucks| :: !InService(f.trucks[j])) ==>
                  && (forall j | 0 <= j < |f.trucks| :: f.trucks[j].distance <= f.trucks[i].distance)
                  && us[i].distance >= f.trucks[i].distance + Reach(c, f.trucks[i], tick.cruise, tick.dt))
  {
    hide StepTruck, Reach, TruckOk;
    var ts, stamp := f.trucks, StampOf(tick, f.elapsed + tick.dt);
    var us := Advance(c, f, tick).0.trucks;
    assert us == SweepTo(c, ts, |ts|, tick.dt, tick.cruise, stamp).trucks;
    forall j | 0 <= j < |ts| && InService(ts[j]) ensures us[j].timer == ts[j].timer + tick.dt {
      SweepAt(c, ts, j, tick.dt, tick.cruise, stamp);
      ServiceGains(c, SweepTo(c, ts, j, tick.dt, tick.cruise, stamp), j, tick.dt, tick.cruise, stamp);
    }
    i := FirstFurthest(ts);
    if forall j | 0 <= j < |ts| :: !InService(ts[j]) {
      LeaderGainsInTick(c, ts, i, tick.dt, tick.cruise, stamp);
    }
  }

  lemma LeaderGainsInTick(c: Config, ts: seq<Truck>, i: nat, dt: real, cruise: real, stamp: real)
    requires c.Valid() && c.groups == [] && dt > 0.0 && cruise > 0.0 && AllTimed(c, ts)
    requires TrucksOk(c, ts) && BaysExclusive(ts)
    requires i < |ts| && forall j | 0 <= j < |ts| :: ts[j].distance <= ts[i].distance
    requires forall j | 0 <= j < i :: ts[j].distance < ts[i].distance
    requires forall j | 0 <= j < |ts| :: !InService(ts[j])
    requires Stalled(ts, SweepTo(c, ts, |ts|, dt, cruise, stamp).trucks)
    ensures SweepTo(c, ts, |ts|, dt, cruise, stamp).trucks[i].distance >= ts[i].distance + Reach(c, ts[i], cruise, dt)
  {
    hide StepTruck, Reach, TruckOk;
    var end := SweepTo(c, ts, |ts|, dt, cruise, stamp);
    var s := SweepTo(c, ts, i, dt, cruise, stamp);
    SweepAt(c, ts, i, dt, cruise, stamp);
    forall j | 0 <= j < i
      ensures s.trucks[j].phase == ts[j].phase && s.trucks[j].distance < s.trucks[i].distance
    {
      SweepSettles(c, ts, i, |ts|, dt, cruise, stamp, j);
      SweepKeepsOrder(c, ts, i, dt, cruise, stamp, j, i);
    }
    BaysStayFree(c, ts, i, dt, cruise, stamp);
    LeaderGains(c, s, i, dt, cruise, stamp);
  }

  // ---------------------------------------------------------------------------
  // No stall lasts
  // ---------------------------------------------------------------------------

  function Times(m: nat, x: real): real { m as real * x }

  lemma TimesStep(m: nat, x: real)
    ensures Times(m + 1, x) == Times(m, x) + x
    ensures Times(0, x) == 0.0
  {
    assert (m + 1) as real * x == m as real * x + x;
  }

  /** After m ticks without a change of phase: a truck has been served that long, or the furthest has come that far. */
  ghost predicate Gained(ts: seq<Truck>, m: nat, pace: real, beat: real) {
    || (exists i | 0 <= i < |ts| :: InService(ts[i]) && ts[i].timer >= Times(m, beat))
    || ((forall i | 0 <= i < |ts| :: !InService(ts[i])) && exists i | 0 <= i < |ts| :: ts[i].distance >= Times(m, pace))
  }

  /** The fleet after the ticks, from any state. */
  ghost function After(c: Config, f: Fleet, ticks: seq<Tick>): (r: Fleet)
    requires c.Valid() && FleetOk(c, f) && DrivesForward(ticks)
    ensures FleetOk(c, r) && |r.trucks| == |f.trucks|
    decreases |ticks|
  {
    if ticks == [] then f
    else
      var before := After(c, f, ticks[..|ticks| - 1]);
      AdvanceKeepsOk(c, before, ticks[|ticks| - 1]);
      Advance(c, before, ticks[|ticks| - 1]).0
  }

  lemma StepKeepsPlans(c: Config, s: Sweep, i: nat, dt: real, cruise: real, stamp: real)
    requires i < |s.trucks| && dt > 0.0 && Timed(c, s.trucks[i]) && OnPlan(c, s.trucks)
    ensures OnPlan(c, StepTruck(c, s, i, dt, cruise, stamp).trucks)
  {
    hide MoveLimit, Reach, LoadShare, DumpShare, Duration;
    assert s.trucks[i].plan == c.plans(i, s.trucks[i].tripNumber);
  }

  lemma {:induction false} SweepKeepsPlans(c: Config, ts: seq<Truck>, k: nat, dt: real, cruise: real, stamp: real)
    requires k <= |ts| && dt > 0.0 && AllTimed(c, ts) && OnPlan(c, ts)
    ensures OnPlan(c, SweepTo(c, ts, k, dt, cruise, stamp).trucks)
    decreases k
  {
    hide StepTruck, OnPlan, Timed;
    if k > 0 {
      SweepKeepsPlans(c, ts, k - 1, dt, cruise, stamp);
      StepKeepsPlans(c, SweepTo(c, ts, k - 1, dt, cruise, stamp), k - 1, dt, cruise, stamp);
    }
  }

  lemma TickKeepsPlans(c: Config, f: Fleet, tick: Tick)
    requires AllTimed(c, f.trucks) && OnPlan(c, f.trucks)
    ensures OnPlan(c, Advance(c, f, tick).0.trucks)
  {
    hide StepTruck, SweepTo;
    if tick.Counts() && !tick.emergencyStopped {
      SweepKeepsPlans(c, f.trucks, |f.trucks|, tick.dt, tick.cruise, StampOf(tick, f.elapsed + tick.dt));
    }
  }

  lemma StalledKeepsGaining(c: Config, f: Fleet, tick: Tick, m: nat, pace: real, beat: real)
    requires c.Valid() && c.groups == [] && FleetOk(c, f) && f.trucks != [] && OnPlan(c, f.trucks)
    requires Steady(c, tick, pace, beat) && Gained(f.trucks, m, pace, beat)
    requires Stalled(f.trucks, Advance(c, f, tick).0.trucks)
    ensures Gained(Advance(c, f, tick).0.trucks, m + 1, pace, beat)
  {
    hide Advance, Reach, FleetOk, Times, Steady;
    var ts, us := f.trucks, Advance(c, f, tick).0.trucks;
    SteadyCounts(c, tick, pace, beat);
    TimesStep(m, beat);
    TimesStep(m, pace);
    var leader := StalledTickGains(c, f, tick);
    if i: nat :| i < |ts| && InService(ts[i]) && ts[i].timer >= Times(m, beat) {
      assert InService(us[i]) && us[i].timer == ts[i].timer + tick.dt;
    } else {
      var i: nat :| i < |ts| && ts[i].distance >= Times(m, pace);
      SteadyReach(c, ts, leader, tick, pace, beat);
      assert us[leader].distance >= Times(m + 1, pace);
    }
  }

  lemma SteadyReach(c: Config, ts: seq<Truck>, i: nat, tick: Tick, pace: real, beat: real)
    requires OnPlan(c, ts) && i < |ts| && Steady(c, tick, pace, beat)
    ensures Reach(c, ts[i], tick.cruise, tick.dt) >= pace
  {
    hide Reach;
    assert ts[i].plan == c.plans(i, ts[i].tripNumber);
  }

  /** So many ticks outlast every service and every drive of the circuit. */
  ghost predicate Outlasts(c: Config, patience: nat, pace: real, beat: real) {
    && pace > 0.0 && beat > 0.0
    && ServiceWithin(c, Times(patience, beat))
    && c.total < Times(patience, pace)
  }

  lemma TimesGrow(a: nat, b: nat, unit: real)
    requires a <= b && unit > 0.0
    ensures Times(a, unit) <= Times(b, unit)
  {
    assert (b - a) as real * unit >= 0.0;
    assert b as real * unit == a as real * unit + (b - a) as real * unit;
  }

  lemma GainedEnough(c: Config, ts: seq<Truck>, patience: nat, m: nat, pace: real, beat: real)
    requires c.Valid() && TrucksOk(c, ts) && OnPlan(c, ts) && Outlasts(c, patience, pace, beat) && patience <= m
    ensures !Gained(ts, m, pace, beat)
  {
    TimesGrow(patience, m, pace);
    TimesGrow(patience, m, beat);
    hide Duration, LoadShare, DumpShare, Times;
    forall i: nat | i < |ts|
      ensures ts[i].distance < Times(patience, pace)
      ensures InService(ts[i]) ==> ts[i].timer < Times(patience, beat)
    {
      assert TruckOk(c, ts[i]);
      assert ts[i].plan == c.plans(i, ts[i].tripNumber);
      assert Duration(c, c.plans(i, ts[i].tripNumber), ts[i].phase) <= Times(patience, beat);
    }
  }

  /** While no phase has changed the gains add up; a longer stall than the patience is impossible. */
  lemma {:induction false} StallGains(c: Config, f: Fleet, ticks: seq<Tick>, pace: real, beat: real)
    requires c.Valid() && c.groups == [] && FleetOk(c, f) && f.trucks != [] && OnPlan(c, f.trucks)
    requires pace > 0.0 && beat > 0.0 && AllSteady(c, ticks, pace, beat) && DrivesForward(ticks)
    ensures var r := After(c, f, ticks);
            && OnPlan(c, r.trucks) && TotalWork(f.trucks) <= TotalWork(r.trucks)
            && (TotalWork(f.trucks) == TotalWork(r.trucks) ==> Gained(r.trucks, Driving(ticks), pace, beat))
    decreases |ticks|
  {
    hide Advance, OnPlan, Gained, Stalled, Steady, FleetOk;
    if ticks == [] {
      NothingGained(c, f, pace, beat);
    } else {
      var init, last := ticks[..|ticks| - 1], ticks[|ticks| - 1];
      StallGains(c, f, init, pace, beat);
      var before := After(c, f, init);
      FleetIsTimed(c, before);
      TickKeepsPlans(c, before, last);
      if Drives(last) {
        SteadyCounts(c, last, pace, beat);
        TickAddsWork(c, before, last);
        if TotalWork(before.trucks) == TotalWork(f.trucks) == TotalWork(After(c, f, ticks).trucks) {
          StalledKeepsGaining(c, before, last, Driving(init), pace, beat);
        }
      } else {
        PauseKeepsPlaces(c, before, last);
        SamePlacesSameGains(before.trucks, After(c, f, ticks).trucks, Driving(init), pace, beat);
      }
    }
  }

  /** A pause or an emergency stop leaves every truck where it is. */
  lemma PauseKeepsPlaces(c: Config, f: Fleet, tick: Tick)
    requires AllTimed(c, f.trucks) && !Drives(tick)
    ensures var us := Advance(c, f, tick).0.trucks; AllSamePlace(f.trucks, us)
  {
    hide StepTruck, SweepTo;
  }

  ghost predicate AllSamePlace(ts: seq<Truck>, us: seq<Truck>) {
    |ts| == |us| && forall i | 0 <= i < |ts| :: SamePlace(ts[i], us[i])
  }

  lemma {:induction false} SameWork(ts: seq<Truck>, us: seq<Truck>)
    requires AllSamePlace(ts, us)
    ensures TotalWork(ts) == TotalWork(us)
    decreases |ts|
  {
    if ts != [] {
      var a, b := ts[..|ts| - 1], us[..|us| - 1];
      assert forall i | 0 <= i < |a| :: a[i] == ts[i] && b[i] == us[i];
      SameWork(a, b);
      assert SamePlace(ts[|a|], us[|a|]);
    }
  }

  lemma SamePlacesSameGains(ts: seq<Truck>, us: seq<Truck>, m: nat, pace: real, beat: real)
    requires AllSamePlace(ts, us)
    ensures TotalWork(ts) == TotalWork(us)
    ensures Gained(ts, m, pace, beat) ==> Gained(us, m, pace, beat)
  {
    hide Times, TotalWork;
    SameWork(ts, us);
    if Gained(ts, m, pace, beat) {
      assert forall i | 0 <= i < |ts| :: SamePlace(ts[i], us[i]);
      if i: nat :| i < |ts| && InService(ts[i]) && ts[i].timer >= Times(m, beat) {
        assert InService(us[i]) && us[i].timer >= Times(m, beat);
      } else {
        var i: nat :| i < |ts| && ts[i].distance >= Times(m, pace);
        assert us[i].distance >= Times(m, pace);
        assert forall j | 0 <= j < |us| :: !InService(us[j]);
      }
    }
  }

  lemma FleetIsTimed(c: Config, f: Fleet)
    requires c.Valid() && FleetOk(c, f)
    ensures AllTimed(c, f.trucks)
  {
  }

  lemma SteadyCounts(c: Config, tick: Tick, pace: real, beat: real)
    requires Steady(c, tick, pace, beat)
    ensures tick.Counts() && !tick.emergencyStopped && tick.cruise > 0.0 && tick.dt >= beat
  {
  }

  lemma NothingGained(c: Config, f: Fleet, pace: real, beat: real)
    requires c.Valid() && FleetOk(c, f) && f.trucks != []
    ensures Gained(f.trucks, 0, pace, beat)
  {
    hide Duration, LoadShare, DumpShare, Times;
    TimesStep(0, beat);
    TimesStep(0, pace);
    var ts := f.trucks;
    DistancesBounded(c, ts);
    if i: nat :| i < |ts| && InService(ts[i]) {
      assert TruckOk(c, ts[i]);
      assert ts[i].timer >= Times(0, beat);
    } else {
      assert ts[0].distance >= Times(0, pace);
    }
  }

  /** Within the patience some truck enters its next phase. */
  lemma PatienceIsRewarded(c: Config, f: Fleet, ticks: seq<Tick>, pace: real, beat: real, patience: nat)
    requires c.Valid() && c.groups == [] && FleetOk(c, f) && f.trucks != [] && OnPlan(c, f.trucks)
    requires Outlasts(c, patience, pace, beat) && AllSteady(c, ticks, pace, beat) && DrivesForward(ticks)
    requires Driving(ticks) >= patience
    ensures OnPlan(c, After(c, f, ticks).trucks)
    ensures TotalWork(After(c, f, ticks).trucks) >= TotalWork(f.trucks) + 1
  {
    hide OnPlan, Gained, AllSteady;
    StallGains(c, f, ticks, pace, beat);
    GainedEnough(c, After(c, f, ticks).trucks, patience, Driving(ticks), pace, beat);
  }

  // ---------------------------------------------------------------------------
  // Work piles up, and work is trips
  // ---------------------------------------------------------------------------

  lemma {:induction false} AfterAppends(c: Config, f: Fleet, a: seq<Tick>, b: seq<Tick>)
    requires c.Valid() && FleetOk(c, f) && DrivesForward(a) && DrivesForward(b)
    ensures DrivesForward(a + b) && After(c, f, a + b) == After(c, After(c, f, a), b)
    decreases |b|
  {
    hide Advance, FleetOk;
    if b == [] {
      assert a + b == a;
    } else {
      assert (a + b)[..|a + b| - 1] == a + b[..|b| - 1];
      AfterAppends(c, f, a, b[..|b| - 1]);
    }
  }

  lemma SteadyPart(c: Config, ticks: seq<Tick>, n: nat, pace: real, beat: real)
    requires AllSteady(c, ticks, pace, beat) && DrivesForward(ticks) && n <= |ticks|
    ensures AllSteady(c, ticks[..n], pace, beat) && AllSteady(c, ticks[n..], pace, beat)
    ensures DrivesForward(ticks[..n]) && DrivesForward(ticks[n..])
    ensures ticks == ticks[..n] + ticks[n..]
  {
    hide Steady;
  }

  /** Cut so many driving ticks off the end. */
  lemma {:induction false} CutOff(ticks: seq<Tick>, d: nat) returns (n: nat)
    requires d <= Driving(ticks)
    ensures n <= |ticks| && Driving(ticks[n..]) == d && Driving(ticks[..n]) == Driving(ticks) - d
  {
    n := |ticks|;
    assert ticks[n..] == [] && ticks[..n] == ticks;
    while Driving(ticks[n..]) < d
      invariant n <= |ticks| && Driving(ticks[n..]) <= d
      invariant Driving(ticks[..n]) + Driving(ticks[n..]) == Driving(ticks)
      decreases n
    {
      assert ticks[..0] == [];
      DrivingSplits([ticks[n - 1]], ticks[n..]);
      assert ticks[n - 1..] == [ticks[n - 1]] + ticks[n..];
      assert ticks[..n][..n - 1] == ticks[..n - 1] && [ticks[n - 1]][..0] == [];
      n := n - 1;
    }
  }

  lemma {:induction false} DrivingSplits(a: seq<Tick>, b: seq<Tick>)
    ensures Driving(a + b) == Driving(a) + Driving(b)
    decreases |b|
  {
    if b == [] {
      assert a + b == a;
    } else {
      assert (a + b)[..|a + b| - 1] == a + b[..|b| - 1];
      DrivingSplits(a, b[..|b| - 1]);
    }
  }

  lemma {:induction false} WorkPilesUp(c: Config, f: Fleet, ticks: seq<Tick>, pace: real, beat: real, patience: nat, m: nat)
    requires c.Valid() && c.groups == [] && FleetOk(c, f) && f.trucks != [] && OnPlan(c, f.trucks)
    requires Outlasts(c, patience, pace, beat) && AllSteady(c, ticks, pace, beat) && DrivesForward(ticks)
    requires Driving(ticks) >= patience * m
    ensures OnPlan(c, After(c, f, ticks).trucks)
    ensures TotalWork(After(c, f, ticks).trucks) >= TotalWork(f.trucks) + m
    decreases m
  {
    hide OnPlan, AllSteady, DrivesForward, Outlasts, FleetOk, After, Driving;
    if m == 0 {
      OutlastsPositive(c, patience, pace, beat);
      StallGains(c, f, ticks, pace, beat);
    } else {
      assert patience * m == patience * (m - 1) + patience;
      assert 0 <= patience * (m - 1);
      var n := CutOff(ticks, patience);
      SteadyPart(c, ticks, n, pace, beat);
      WorkPilesUp(c, f, ticks[..n], pace, beat, patience, m - 1);
      PatienceIsRewarded(c, After(c, f, ticks[..n]), ticks[n..], pace, beat, patience);
      AfterAppends(c, f, ticks[..n], ticks[n..]);
    }
  }

  lemma OutlastsPositive(c: Config, patience: nat, pace: real, beat: real)
    requires Outlasts(c, patience, pace, beat)
    ensures pace > 0.0 && beat > 0.0
  {
  }

  function Cycles(ts: seq<Truck>): int {
    if ts == [] then 0 else Cycles(ts[..|ts| - 1]) + ts[|ts| - 1].cycle
  }

  lemma {:induction false} CyclesUpdate(ts: seq<Truck>, i: nat, u: Truck)
    requires i < |ts|
    ensures Cycles(ts[i := u]) == Cycles(ts) - ts[i].cycle + u.cycle
    decreases |ts|
  {
    var init, now := ts[..|ts| - 1], ts[i := u];
    if i == |ts| - 1 {
      assert now[..|now| - 1] == init;
    } else {
      assert now[..|now| - 1] == init[i := u];
      CyclesUpdate(init, i, u);
    }
  }

  /** A trip is completed exactly when a cycle ends. */
  lemma StepCountsTrips(c: Config, s: Sweep, i: nat, dt: real, cruise: real, stamp: real)
    requires i < |s.trucks| && dt > 0.0 && Timed(c, s.trucks[i])
    ensures var r := StepTruck(c, s, i, dt, cruise, stamp); Cycles(r.trucks) - |r.trips| == Cycles(s.trucks) - |s.trips|
  {
    hide MoveLimit, Reach, LoadShare, DumpShare, Duration, Cycles;
    var r := StepTruck(c, s, i, dt, cruise, stamp);
    assert r.trucks == s.trucks[i := r.trucks[i]];
    CyclesUpdate(s.trucks, i, r.trucks[i]);
  }

  lemma {:induction false} SweepCountsTrips(c: Config, ts: seq<Truck>, k: nat, dt: real, cruise: real, stamp: real)
    requires k <= |ts| && dt > 0.0 && AllTimed(c, ts)
    ensures var s := SweepTo(c, ts, k, dt, cruise, stamp); Cycles(s.trucks) - |s.trips| == Cycles(ts)
    decreases k
  {
    hide StepTruck, Timed, Cycles;
    if k > 0 {
      SweepCountsTrips(c, ts, k - 1, dt, cruise, stamp);
      StepCountsTrips(c, SweepTo(c, ts, k - 1, dt, cruise, stamp), k - 1, dt, cruise, stamp);
    }
  }

  lemma {:induction false} SameCycles(ts: seq<Truck>, us: seq<Truck>)
    requires |ts| == |us| && forall i | 0 <= i < |ts| :: ts[i].cycle == us[i].cycle
    ensures Cycles(ts) == Cycles(us)
    decreases |ts|
  {
    if ts != [] {
      SameCycles(ts[..|ts| - 1], us[..|us| - 1]);
    }
  }

  lemma TickCountsTrips(c: Config, f: Fleet, tick: Tick)
    requires AllTimed(c, f.trucks)
    ensures var r := Advance(c, f, tick); Cycles(r.0.trucks) - |r.1| == Cycles(f.trucks)
  {
    hide StepTruck, SweepTo, Cycles;
    if tick.Counts() && !tick.emergencyStopped {
      SweepCountsTrips(c, f.trucks, |f.trucks|, tick.dt, tick.cruise, StampOf(tick, f.elapsed + tick.dt));
    } else {
      SameCycles(f.trucks, Advance(c, f, tick).0.trucks);
    }
  }

  lemma {:induction false} StartingWork(ts: seq<Truck>)
    requires forall i | 0 <= i < |ts| :: ts[i].phase.Queued? && ts[i].cycle == 1
    ensures TotalWork(ts) == 8 * |ts| && Cycles(ts) == |ts|
  {
    if ts != [] {
      StartingWork(ts[..|ts| - 1]);
    }
  }

  /** A truck enters at most eight phases a cycle. */
  lemma {:induction false} WorkIsCycles(ts: seq<Truck>)
    ensures TotalWork(ts) <= 8 * Cycles(ts) + 7 * |ts|
  {
    if ts != [] {
      WorkIsCycles(ts[..|ts| - 1]);
    }
  }

  /** The fleet of a run is where its ticks lead, and its trips are its completed cycles. */
  lemma {:induction false} RunIsAfter(c: Config, numbers: seq<int>, ticks: seq<Tick>)
    requires c.Valid() && QueueFits(c, |numbers|) && DrivesForward(ticks)
    ensures FleetOk(c, StartingFleet(c, numbers))
    ensures Run(c, numbers, ticks).0 == After(c, StartingFleet(c, numbers), ticks)
    ensures |Run(c, numbers, ticks).1| == Cycles(Run(c, numbers, ticks).0.trucks) - |numbers|
    decreases |ticks|
  {
    hide Advance, FleetOk, StartingFleet, Cycles;
    StartingFleetOk(c, numbers);
    if ticks == [] {
      StartingFleetWork(c, numbers);
    } else {
      RunIsAfter(c, numbers, ticks[..|ticks| - 1]);
      var before := Run(c, numbers, ticks[..|ticks| - 1]).0;
      FleetIsTimed(c, before);
      TickCountsTrips(c, before, ticks[|ticks| - 1]);
    }
  }

  lemma StartingFleetWork(c: Config, numbers: seq<int>)
    ensures var ts := StartingFleet(c, numbers).trucks;
            |ts| == |numbers| && TotalWork(ts) == 8 * |numbers| && Cycles(ts) == |numbers| && OnPlan(c, ts)
  {
    StartingWork(StartingFleet(c, numbers).trucks);
  }

  /** Throughput: `patience` driving ticks that outlast every service and every drive of the circuit bring some
      truck into its next phase, so eight times k of them and seven more for each truck deliver k trips, however
      many pauses and emergency stops fall between them. */
  lemma FleetKeepsDelivering(c: Config, numbers: seq<int>, ticks: seq<Tick>, pace: real, beat: real, patience: nat, k: nat)
    requires c.Valid() && c.groups == [] && QueueFits(c, |numbers|) && numbers != []
    requires Outlasts(c, patience, pace, beat) && AllSteady(c, ticks, pace, beat) && DrivesForward(ticks)
    requires Driving(ticks) >= patience * (8 * k + 7 * |numbers|)
    ensures |Run(c, numbers, ticks).1| >= k
  {
    hide Run, After, FleetOk, StartingFleet, OnPlan, AllSteady, Outlasts, TotalWork, Cycles, DrivesForward;
    RunIsAfter(c, numbers, ticks);
    StartingFleetWork(c, numbers);
    WorkPilesUp(c, StartingFleet(c, numbers), ticks, pace, beat, patience, 8 * k + 7 * |numbers|);
    WorkIsCycles(Run(c, numbers, ticks).0.trucks);
  }

  /** There always is such a patience when services are bounded. */
  lemma SomePatienceOutlasts(c: Config, service: real, pace: real, beat: real) returns (patience: nat)
    requires c.Valid() && ServiceWithin(c, service) && pace > 0.0 && beat > 0.0
    ensures Outlasts(c, patience, pace, beat)
  {
    hide Duration;
    var a := Enough(service, beat);
    var b := Enough(c.total, pace);
    patience := a + b + 1;
    MoreIsEnough(a, patience, beat);
    MoreIsEnough(b, patience, pace);
    forall i: nat, n: int, p: Phase ensures Duration(c, c.plans(i, n), p) <= Times(patience, beat) {
      assert Duration(c, c.plans(i, n), p) <= service;
    }
  }

  lemma Enough(x: real, unit: real) returns (n: nat)
    requires unit > 0.0
    ensures x <= Times(n, unit)
  {
    var q := x / unit;
    n := if q <= 0.0 then 0 else q.Floor + 1;
    assert q <= n as real;
    assert q * unit == x;
    assert q * unit <= n as real * unit;
  }

  lemma MoreIsEnough(a: nat, b: nat, unit: real)
    requires a < b && unit > 0.0
    ensures Times(a, unit) < Times(b, unit)
  {
    assert (b - a) as real * unit > 0.0;
    assert b as real * unit == a as real * unit + (b - a) as real * unit;
  }
}
