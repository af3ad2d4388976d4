/** Fairness: no truck is left behind. Whatever the others do, every truck enters its next phase within a
    bounded number of driving ticks, at the loading stop by the turns that `HaulStop.dfy` states. */
module HaulFairness {
  import opened HaulModel
  import opened HaulInvariants
  import opened HaulTraffic
  import opened HaulProgress
  import opened HaulThroughput
  import opened HaulLedger
  import opened HaulStop

  // ---------------------------------------------------------------------------
  // How far the others get
  // ---------------------------------------------------------------------------

  /** While truck x stays in its phase: y has not passed the loading stop yet, or it has and is behind x. */
  predicate HeldBack(c: Config, x: Truck, y: Truck, cycle: int) {
    || y.cycle == cycle
    || (y.cycle == cycle + 1 && y.phase.Queued?)
    || (y.cycle == cycle + 1 && Behind(c, x, y))
  }

  predicate Behind(c: Config, x: Truck, y: Truck) {
    && !y.phase.Queued? && y.distance < x.distance
    && (y.phase.Returning? ==> y.distance < c.total - TOL)
  }

  lemma StepCycle(c: Config, s: Sweep, i: nat, dt: real, cruise: real, stamp: real)
    requires i < |s.trucks| && dt > 0.0 && Timed(c, s.trucks[i])
    ensures var t, u := s.trucks[i], StepTruck(c, s, i, dt, cruise, stamp).trucks[i];
            && (u.cycle == t.cycle || (u.cycle == t.cycle + 1 && u.phase.Queued?))
            && (t.phase.Queued? ==> u.cycle == t.cycle && (u.phase.Queued? || (u.phase.Loading? && u.distance == 0.0)))
            && (!t.phase.Queued? && u.phase.Queued? ==>
                  && t.phase.Returning? && u.distance >= c.total - TOL
                  && u.distance == Advanced(c, s.trucks, i, s.bays, dt, cruise).distance)
            && (t.phase.Returning? && u.phase.Returning? ==>
                  u.distance == Advanced(c, s.trucks, i, s.bays, dt, cruise).distance)
            && (!t.phase.Returning? && u.phase.Returning? ==> AtTip(t.phase) && u.distance == t.distance)
  {
    hide MoveLimit, Reach, LoadShare, DumpShare, Duration;
  }

  /** A truck returning behind another one on the road does not reach the end of it. */
  lemma ReturningStaysBehind(c: Config, s: Sweep, y: nat, x: nat, dt: real, cruise: real)
    requires c.Valid() && Roomy(c) && SweepOk(c, s) && x < |s.trucks| && y < |s.trucks| && dt > 0.0 && cruise >= 0.0
    requires s.trucks[y].phase.Returning? && s.trucks[y].distance < s.trucks[x].distance
    requires s.trucks[y].distance < c.total - TOL
    ensures Advanced(c, s.trucks, y, s.bays, dt, cruise).distance < c.total - TOL
  {
    hide TruckOk, MoveLimit, Reach;
    DistancesBounded(c, s.trucks);
    assert TruckOk(c, s.trucks[y]) && s.trucks[y].plan.Valid() by {
      OkMeansPlanned(c, s.trucks, y);
    }
    AdvancedInBounds(c, s.trucks, y, s.bays, dt, cruise);
    assert IsAhead(c, s.trucks, y, x);
    AheadLimits(c, s.trucks, y, s.bays, x);
  }

  lemma OtherStaysBack(c: Config, f: Fleet, tick: Tick, x: nat, y: nat, cycle: int)
    requires c.Valid() && Roomy(c) && FleetOk(c, f) && Drives(tick) && tick.cruise >= 0.0
    requires x < |f.trucks| && y < |f.trucks| && x != y && f.trucks[x].distance > 0.0
    requires Advance(c, f, tick).0.trucks[x].phase == f.trucks[x].phase
    requires HeldBack(c, f.trucks[x], f.trucks[y], cycle)
    ensures HeldBack(c, Advance(c, f, tick).0.trucks[x], Advance(c, f, tick).0.trucks[y], cycle)
    ensures Advance(c, f, tick).0.trucks[x].distance > 0.0
  {
    hide StepTruck, TruckOk, Advanced;
    var ts, stamp := f.trucks, StampOf(tick, f.elapsed + tick.dt);
    var end := SweepTo(c, ts, |ts|, tick.dt, tick.cruise, stamp);
    assert Advance(c, f, tick).0.trucks == end.trucks;
    SweepMovesForward(c, ts, 0, |ts|, tick.dt, tick.cruise, stamp, x);
    SweepAt(c, ts, y, tick.dt, tick.cruise, stamp);
    var s := SweepTo(c, ts, y, tick.dt, tick.cruise, stamp);
    StepCycle(c, s, y, tick.dt, tick.cruise, stamp);
    if Behind(c, ts[x], ts[y]) {
      SweepKeepsOrder(c, ts, y, tick.dt, tick.cruise, stamp, y, x);
      SweepKeepsOrder(c, ts, |ts|, tick.dt, tick.cruise, stamp, y, x);
      OkMeansPlanned(c, ts, y);
      if ts[y].phase.Returning? {
        ReturningStaysBehind(c, s, y, x, tick.dt, tick.cruise);
      }
    }
  }

  // ---------------------------------------------------------------------------
  // One truck over a tick
  // ---------------------------------------------------------------------------

  /** Over a tick the work of a truck grows, or it stays in its phase. */
  lemma TruckWorks(c: Config, f: Fleet, tick: Tick, x: nat)
    requires c.Valid() && c.groups == [] && FleetOk(c, f) && x < |f.trucks| && (Drives(tick) ==> tick.cruise > 0.0)
    ensures var t, u := f.trucks[x], Advance(c, f, tick).0.trucks[x];
            && Work(t) <= Work(u)
            && (Work(t) == Work(u) ==> t.phase == u.phase && t.cycle == u.cycle)
            && (!Drives(tick) ==> SamePlace(t, u))
  {
    hide Further, SamePlace, Work, FleetOk, Advance;
    FleetIsTimed(c, f);
    var t, u := f.trucks[x], Advance(c, f, tick).0.trucks[x];
    if Drives(tick) {
      NoDeadlock(c, f, tick);
    } else {
      PauseKeepsPlaces(c, f, tick);
    }
    GoingOnIsWork(t, u);
  }

  /** A truck in service that stays in its phase is served for the whole tick. */
  lemma ServedOn(c: Config, f: Fleet, tick: Tick, x: nat)
    requires c.Valid() && FleetOk(c, f) && Drives(tick) && tick.cruise >= 0.0 && x < |f.trucks| && InService(f.trucks[x])
    requires Advance(c, f, tick).0.trucks[x].phase == f.trucks[x].phase
    ensures Advance(c, f, tick).0.trucks[x].timer == f.trucks[x].timer + tick.dt
  {
    hide StepTruck, TruckOk;
    var ts, stamp := f.trucks, StampOf(tick, f.elapsed + tick.dt);
    assert Advance(c, f, tick).0.trucks == SweepTo(c, ts, |ts|, tick.dt, tick.cruise, stamp).trucks;
    SweepAt(c, ts, x, tick.dt, tick.cruise, stamp);
    ServiceGains(c, SweepTo(c, ts, x, tick.dt, tick.cruise, stamp), x, tick.dt, tick.cruise, stamp);
  }

  // ---------------------------------------------------------------------------
  // Over many ticks
  // ---------------------------------------------------------------------------

  /** All other trucks are held back by x, each since the cycle it was in. */
  ghost predicate AllHeldBack(c: Config, f: Fleet, r: Fleet, x: nat)
    requires |r.trucks| == |f.trucks| && x < |f.trucks|
  {
    forall y | 0 <= y < |f.trucks| && y != x :: HeldBack(c, r.trucks[x], r.trucks[y], f.trucks[y].cycle)
  }

  /** As long as x stays in its phase the others are held back, and x, if in service, is served. */
  lemma {:induction false} StuckHoldsBack(c: Config, f: Fleet, ticks: seq<Tick>, pace: real, beat: real, x: nat)
    requires c.Valid() && Roomy(c) && c.groups == [] && FleetOk(c, f) && x < |f.trucks| && OnPlan(c, f.trucks)
    requires pace > 0.0 && beat > 0.0 && AllSteady(c, ticks, pace, beat) && DrivesForward(ticks)
    ensures var t, r := f.trucks[x], After(c, f, ticks);
            && OnPlan(c, r.trucks) && Work(t) <= Work(r.trucks[x])
            && (Work(t) == Work(r.trucks[x]) ==>
                  && r.trucks[x].phase == t.phase
                  && (t.distance > 0.0 ==> r.trucks[x].distance > 0.0 && AllHeldBack(c, f, r, x))
                  && (InService(t) ==> r.trucks[x].timer >= Times(Driving(ticks), beat)))
    decreases |ticks|
  {
    hide Advance, OnPlan, Steady, FleetOk, Work, HeldBack, Times;
    if ticks == [] {
      StuckFromTheStart(c, f, x, beat);
    } else {
      var init, last := ticks[..|ticks| - 1], ticks[|ticks| - 1];
      StuckHoldsBack(c, f, init, pace, beat, x);
      var before := After(c, f, init);
      FleetIsTimed(c, before);
      TickKeepsPlans(c, before, last);
      if Drives(last) {
        SteadyCounts(c, last, pace, beat);
      }
      TruckWorks(c, before, last, x);
      if Work(f.trucks[x]) == Work(After(c, f, ticks).trucks[x]) {
        StuckOneTickMore(c, f, before, last, x, pace, beat, Driving(init));
      }
    }
  }

  lemma StuckOneTickMore(
    c: Config, f: Fleet, before: Fleet, tick: Tick, x: nat, pace: real, beat: real, m: nat)
    requires c.Valid() && Roomy(c) && FleetOk(c, before) && x < |f.trucks| == |before.trucks|
    requires tick.cruise >= 0.0 && (Drives(tick) ==> Steady(c, tick, pace, beat))
    requires before.trucks[x].phase == f.trucks[x].phase
    requires f.trucks[x].distance > 0.0 ==> before.trucks[x].distance > 0.0 && AllHeldBack(c, f, before, x)
    requires InService(f.trucks[x]) ==> before.trucks[x].timer >= Times(m, beat)
    requires Advance(c, before, tick).0.trucks[x].phase == before.trucks[x].phase
    ensures var r := Advance(c, before, tick).0;
            && (f.trucks[x].distance > 0.0 ==> r.trucks[x].distance > 0.0 && AllHeldBack(c, f, r, x))
            && (InService(f.trucks[x]) ==> r.trucks[x].timer >= Times(m + if Drives(tick) then 1 else 0, beat))
  {
    hide Advance, FleetOk, HeldBack, Times, Steady;
    FleetIsTimed(c, before);
    var r := Advance(c, before, tick).0;
    TimesStep(m, beat);
    if Drives(tick) {
      SteadyCounts(c, tick, pace, beat);
      if InService(f.trucks[x]) {
        ServedOn(c, before, tick, x);
      }
    } else {
      PauseKeepsPlaces(c, before, tick);
      assert forall y | 0 <= y < |before.trucks| :: SamePlace(before.trucks[y], r.trucks[y]);
    }
    if f.trucks[x].distance > 0.0 {
      forall y | 0 <= y < |f.trucks| && y != x
        ensures HeldBack(c, r.trucks[x], r.trucks[y], f.trucks[y].cycle) && r.trucks[x].distance > 0.0
      {
        if Drives(tick) {
          OtherStaysBack(c, before, tick, x, y, f.trucks[y].cycle);
        } else {
          HeldBackInPlace(c, before.trucks[x], before.trucks[y], r.trucks[x], r.trucks[y], f.trucks[y].cycle);
        }
      }
      if Drives(tick) {
        StaysOnRoad(c, before, tick, x);
      }
    }
  }

  lemma HeldBackInPlace(c: Config, x: Truck, y: Truck, u: Truck, v: Truck, cycle: int)
    requires HeldBack(c, x, y, cycle) && SamePlace(x, u) && SamePlace(y, v)
    ensures HeldBack(c, u, v, cycle)
  {
  }

  /** A truck past the loading stop that stays in its phase stays past it. */
  lemma StaysOnRoad(c: Config, f: Fleet, tick: Tick, x: nat)
    requires c.Valid() && FleetOk(c, f) && Drives(tick) && tick.cruise >= 0.0 && x < |f.trucks|
    requires f.trucks[x].distance > 0.0 && Advance(c, f, tick).0.trucks[x].phase == f.trucks[x].phase
    ensures Advance(c, f, tick).0.trucks[x].distance > 0.0
  {
    hide StepTruck, TruckOk;
    var ts, stamp := f.trucks, StampOf(tick, f.elapsed + tick.dt);
    assert Advance(c, f, tick).0.trucks == SweepTo(c, ts, |ts|, tick.dt, tick.cruise, stamp).trucks;
    SweepMovesForward(c, ts, 0, |ts|, tick.dt, tick.cruise, stamp, x);
  }

  lemma StuckFromTheStart(c: Config, f: Fleet, x: nat, beat: real)
    requires c.Valid() && FleetOk(c, f) && x < |f.trucks|
    ensures AllHeldBack(c, f, f, x)
    ensures InService(f.trucks[x]) ==> f.trucks[x].timer >= Times(0, beat)
  {
    hide Duration, LoadShare, DumpShare, Times;
    TimesStep(0, beat);
    OkMeansPlanned(c, f.trucks, x);
  }

  // ---------------------------------------------------------------------------
  // Nobody is left behind
  // ---------------------------------------------------------------------------

  lemma {:induction false} WorkIsBounded(ts: seq<Truck>, us: seq<Truck>)
    requires |ts| == |us| && forall i | 0 <= i < |ts| :: Work(us[i]) <= Work(ts[i]) + 15
    ensures TotalWork(us) <= TotalWork(ts) + 15 * |ts|
    decreases |ts|
  {
    hide Work;
    if ts != [] {
      var a, b := ts[..|ts| - 1], us[..|us| - 1];
      assert forall i | 0 <= i < |a| :: a[i] == ts[i] && b[i] == us[i];
      WorkIsBounded(a, b);
    }
  }

  lemma HeldBackWork(c: Config, x: Truck, y: Truck, t: Truck)
    requires HeldBack(c, x, y, t.cycle)
    ensures Work(y) <= Work(t) + 15
  {
  }

  /** How many driving ticks are enough for every truck of a fleet. */
  function Enough(patience: nat, trucks: nat): nat { patience * (15 * trucks + 1) }

  /** Within that many driving ticks every truck enters its next phase, except one that is loaded and is kept
      at the loading stop. */
  lemma EveryTruckGoesOn(
    c: Config, f: Fleet, ticks: seq<Tick>, pace: real, beat: real, patience: nat, x: nat)
    requires c.Valid() && Roomy(c) && c.groups == [] && FleetOk(c, f) && x < |f.trucks| && OnPlan(c, f.trucks)
    requires Outlasts(c, patience, pace, beat) && AllSteady(c, ticks, pace, beat) && DrivesForward(ticks)
    requires Driving(ticks) >= Enough(patience, |f.trucks|) && !AtLoadingStop(f.trucks[x])
    ensures OnPlan(c, After(c, f, ticks).trucks)
    ensures Work(After(c, f, ticks).trucks[x]) >= Work(f.trucks[x]) + 1
  {
    hide OnPlan, AllSteady, Outlasts, Work, HeldBack, TotalWork, TruckOk, Driving;
    OutlastsPositive(c, patience, pace, beat);
    StuckHoldsBack(c, f, ticks, pace, beat, x);
    var r := After(c, f, ticks);
    if Work(r.trucks[x]) == Work(f.trucks[x]) {
      PatienceIsLess(patience, |f.trucks|);
      ServiceEnds(c, r.trucks, x, patience, Driving(ticks), pace, beat);
      OnRoadIsPastStop(c, f, x);
      forall y | 0 <= y < |f.trucks| ensures Work(r.trucks[y]) <= Work(f.trucks[y]) + 15 {
        if y != x {
          HeldBackWork(c, r.trucks[x], r.trucks[y], f.trucks[y]);
        }
      }
      WorkIsBounded(f.trucks, r.trucks);
      WorkPilesUp(c, f, ticks, pace, beat, patience, 15 * |f.trucks| + 1);
    }
  }

  lemma PatienceIsLess(patience: nat, trucks: nat)
    ensures patience <= Enough(patience, trucks)
  {
    assert patience * (15 * trucks + 1) == patience * (15 * trucks) + patience;
  }

  /** No service lasts as long as the patience. */
  lemma ServiceEnds(c: Config, ts: seq<Truck>, x: nat, patience: nat, m: nat, pace: real, beat: real)
    requires c.Valid() && TrucksOk(c, ts) && OnPlan(c, ts) && Outlasts(c, patience, pace, beat) && patience <= m
    requires x < |ts|
    ensures InService(ts[x]) ==> ts[x].timer < Times(m, beat)
  {
    hide Times;
    GainedEnough(c, ts, patience, m, pace, beat);
  }

  lemma OnRoadIsPastStop(c: Config, f: Fleet, x: nat)
    requires c.Valid() && Roomy(c) && FleetOk(c, f) && x < |f.trucks|
    requires !InService(f.trucks[x]) && !AtLoadingStop(f.trucks[x])
    ensures f.trucks[x].distance > 0.0
  {
    OkMeansPlanned(c, f.trucks, x);
  }

  /** From some point after a on, not at the loading stop, enough driving ticks follow, so the truck enters its
      next phase. */
  lemma GoesOnFrom(c: Config, f: Fleet, ticks: seq<Tick>, pace: real, beat: real, patience: nat, x: nat, a: nat, p: nat)
    requires c.Valid() && Roomy(c) && c.groups == [] && FleetOk(c, f) && x < |f.trucks| && OnPlan(c, f.trucks)
    requires Outlasts(c, patience, pace, beat) && AllSteady(c, ticks, pace, beat) && DrivesForward(ticks)
    requires a <= p <= |ticks| && Driving(ticks[p..]) >= Enough(patience, |f.trucks|)
    requires !AtLoadingStop(After(c, f, ticks[..p]).trucks[x])
    ensures Work(After(c, f, ticks).trucks[x]) >= Work(After(c, f, ticks[..a]).trucks[x]) + 1
  {
    hide After, FleetOk, Outlasts, OnPlan, AllSteady, DrivesForward, Work, Driving, AtLoadingStop;
    OutlastsPositive(c, patience, pace, beat);
    SteadyPart(c, ticks, p, pace, beat);
    SteadyPart(c, ticks[..p], a, pace, beat);
    assert ticks[..p][..a] == ticks[..a];
    StuckHoldsBack(c, f, ticks[..p], pace, beat, x);
    StuckHoldsBack(c, f, ticks[..a], pace, beat, x);
    StuckHoldsBack(c, After(c, f, ticks[..a]), ticks[..p][a..], pace, beat, x);
    AfterAppends(c, f, ticks[..a], ticks[..p][a..]);
    EveryTruckGoesOn(c, After(c, f, ticks[..p]), ticks[p..], pace, beat, patience, x);
    AfterAppends(c, f, ticks[..p], ticks[p..]);
  }

  // ---------------------------------------------------------------------------
  // The turns at the loading stop
  // ---------------------------------------------------------------------------

  /** After the first n ticks truck b shuts the loading stop. */
  ghost predicate NearAt(c: Config, f: Fleet, ticks: seq<Tick>, b: nat, n: nat)
    requires c.Valid() && FleetOk(c, f) && DrivesForward(ticks) && b < |f.trucks| && n <= |ticks|
  {
    Near(c, After(c, f, ticks[..n]).trucks[b])
  }

  /** All along, truck b shuts the loading stop. */
  ghost predicate StaysNear(c: Config, f: Fleet, ticks: seq<Tick>, b: nat)
    requires c.Valid() && FleetOk(c, f) && DrivesForward(ticks) && b < |f.trucks|
  {
    forall n: nat | n <= |ticks| :: NearAt(c, f, ticks, b, n)
  }

  lemma StaysNearBefore(c: Config, f: Fleet, ticks: seq<Tick>, b: nat, m: nat)
    requires c.Valid() && FleetOk(c, f) && DrivesForward(ticks) && b < |f.trucks| && m <= |ticks|
    requires StaysNear(c, f, ticks, b)
    ensures StaysNear(c, f, ticks[..m], b) && Near(c, After(c, f, ticks[..m]).trucks[b])
  {
    hide After, FleetOk, Near;
    assert NearAt(c, f, ticks, b, m);
    forall n: nat | n <= m ensures NearAt(c, f, ticks[..m], b, n) {
      assert NearAt(c, f, ticks, b, n) && ticks[..m][..n] == ticks[..n];
    }
  }

  /** A truck that still shuts the stop after a tick has neither joined nor left the queue in it. */
  lemma NearTick(c: Config, f: Fleet, tick: Tick, b: nat)
    requires c.Valid() && Roomy(c) && FleetOk(c, f) && tick.cruise >= 0.0 && b < |f.trucks|
    requires Near(c, Advance(c, f, tick).0.trucks[b])
    ensures var t, u := f.trucks[b], Advance(c, f, tick).0.trucks[b];
            u.cycle == t.cycle && (u.phase.Queued? <==> t.phase.Queued?)
  {
    hide StepTruck, TruckOk, Advanced;
    if Drives(tick) {
      var ts, stamp := f.trucks, StampOf(tick, f.elapsed + tick.dt);
      assert Advance(c, f, tick).0.trucks == SweepTo(c, ts, |ts|, tick.dt, tick.cruise, stamp).trucks;
      SweepAt(c, ts, b, tick.dt, tick.cruise, stamp);
      StepCycle(c, SweepTo(c, ts, b, tick.dt, tick.cruise, stamp), b, tick.dt, tick.cruise, stamp);
    } else {
      FleetIsTimed(c, f);
      PauseKeepsPlaces(c, f, tick);
      assert SamePlace(f.trucks[b], Advance(c, f, tick).0.trucks[b]);
    }
  }

  /** While a truck shuts the stop it enters at most five phases. */
  lemma {:induction false} NearWork(c: Config, f: Fleet, ticks: seq<Tick>, b: nat)
    requires c.Valid() && Roomy(c) && FleetOk(c, f) && DrivesForward(ticks) && b < |f.trucks| && StaysNear(c, f, ticks, b)
    ensures var t, u := f.trucks[b], After(c, f, ticks).trucks[b];
            u.cycle == t.cycle && (u.phase.Queued? <==> t.phase.Queued?) && Work(u) <= Work(t) + 5
    decreases |ticks|
  {
    hide FleetOk, Advance;
    assert Near(c, f.trucks[b]) by {
      StaysNearBefore(c, f, ticks, b, 0);
    }
    OkMeansPlanned(c, f.trucks, b) by {
      FleetMeansOk(c, f);
    }
    if ticks != [] {
      var init, last := ticks[..|ticks| - 1], ticks[|ticks| - 1];
      StaysNearBefore(c, f, ticks, b, |ticks| - 1);
      assert ticks[..|ticks|] == ticks;
      StaysNearBefore(c, f, ticks, b, |ticks|);
      NearWork(c, f, init, b);
      NearTick(c, After(c, f, init), last, b);
    }
  }

  lemma FleetMeansOk(c: Config, f: Fleet)
    requires c.Valid() && FleetOk(c, f)
    ensures TrucksOk(c, f.trucks)
  {
  }

  lemma {:induction false} NearPilesUp(
    c: Config, f: Fleet, ticks: seq<Tick>, pace: real, beat: real, patience: nat, b: nat, m: nat)
    requires c.Valid() && Roomy(c) && c.groups == [] && FleetOk(c, f) && b < |f.trucks| && OnPlan(c, f.trucks)
    requires Outlasts(c, patience, pace, beat) && AllSteady(c, ticks, pace, beat) && DrivesForward(ticks)
    requires StaysNear(c, f, ticks, b) && Driving(ticks) >= Enough(patience, |f.trucks|) * m
    ensures Work(After(c, f, ticks).trucks[b]) >= Work(f.trucks[b]) + m
    decreases m
  {
    hide After, FleetOk, Outlasts, OnPlan, AllSteady, DrivesForward, Work, Driving, Enough, StaysNear;
    OutlastsPositive(c, patience, pace, beat);
    if m == 0 {
      StuckHoldsBack(c, f, ticks, pace, beat, b);
    } else {
      var enough := Enough(patience, |f.trucks|);
      assert enough * m == enough * (m - 1) + enough && 0 <= enough * (m - 1);
      var n := CutOff(ticks, enough);
      SteadyPart(c, ticks, n, pace, beat);
      StaysNearBefore(c, f, ticks, b, n);
      NearPilesUp(c, f, ticks[..n], pace, beat, patience, b, m - 1);
      GoesOnFrom(c, f, ticks, pace, beat, patience, b, n, n);
    }
  }

  lemma PartsDriveForward(ticks: seq<Tick>, m: nat, n: nat)
    requires DrivesForward(ticks) && m + n <= |ticks|
    ensures DrivesForward(ticks[..m]) && DrivesForward(ticks[m..][..n]) && DrivesForward(ticks[m..])
    ensures ticks[..m] + ticks[m..][..n] == ticks[..m + n]
  {
  }

  /** The fleet after m ticks and n more. */
  lemma AfterBoth(c: Config, f: Fleet, ticks: seq<Tick>, m: nat, n: nat)
    requires c.Valid() && FleetOk(c, f) && DrivesForward(ticks) && m + n <= |ticks|
    ensures DrivesForward(ticks[..m]) && DrivesForward(ticks[m..][..n])
    ensures After(c, After(c, f, ticks[..m]), ticks[m..][..n]) == After(c, f, ticks[..m + n])
  {
    hide After, FleetOk, DrivesForward;
    PartsDriveForward(ticks, m, n);
    AfterAppends(c, f, ticks[..m], ticks[m..][..n]);
  }

  lemma WaitsAfter(c: Config, f: Fleet, ticks: seq<Tick>, x: nat, m: nat)
    requires c.Valid() && FleetOk(c, f) && DrivesForward(ticks) && x < |f.trucks| && Waits(c, f, ticks, x) && m <= |ticks|
    ensures DrivesForward(ticks[..m]) && DrivesForward(ticks[m..])
    ensures Waits(c, After(c, f, ticks[..m]), ticks[m..], x)
    ensures After(c, After(c, f, ticks[..m]), ticks[m..]) == After(c, f, ticks)
  {
    hide After, FleetOk, AtLoadingStop, DrivesForward;
    PartsDriveForward(ticks, m, |ticks| - m);
    AfterWhole(c, f, ticks, m);
    forall n: nat | n <= |ticks| - m ensures WaitsAt(c, After(c, f, ticks[..m]), ticks[m..], x, n) {
      AfterBoth(c, f, ticks, m, n);
      assert WaitsAt(c, f, ticks, x, m + n);
    }
  }

  lemma AfterWhole(c: Config, f: Fleet, ticks: seq<Tick>, m: nat)
    requires c.Valid() && FleetOk(c, f) && DrivesForward(ticks) && m <= |ticks|
    ensures DrivesForward(ticks[..m]) && DrivesForward(ticks[m..])
    ensures After(c, After(c, f, ticks[..m]), ticks[m..]) == After(c, f, ticks)
  {
    hide After, FleetOk, DrivesForward;
    PartsDriveForward(ticks, m, |ticks| - m);
    AfterBoth(c, f, ticks, m, |ticks| - m);
    assert ticks[m..][..|ticks| - m] == ticks[m..] && ticks[..m + (|ticks| - m)] == ticks;
  }

  /** A turn that does not go on is one truck's all the time. */
  lemma TurnStays(c: Config, f: Fleet, ticks: seq<Tick>, x: nat)
    requires c.Valid() && Roomy(c) && c.groups == [] && FleetOk(c, f) && SingleFile(c, f.trucks) && x < |f.trucks|
    requires DrivesForward(ticks) && Moving(ticks) && Waits(c, f, ticks, x) && Driving(ticks) > 0
    requires var n := |f.trucks|; Place(x, n, Closer(c, f.trucks)) >= Place(x, n, Closer(c, After(c, f, ticks).trucks))
    ensures Closer(c, f.trucks) >= 0 && StaysNear(c, f, ticks, Closer(c, f.trucks))
  {
    hide After, FleetOk, SingleFile, Near, Waits;
    TurnsGoOn(c, f, ticks, x, x);
    var b := Closer(c, f.trucks);
    forall n: nat | n <= |ticks| ensures NearAt(c, f, ticks, b, n) {
      WaitsBefore(c, f, ticks, x, n);
      TurnsGoOn(c, f, ticks[..n], x, x);
      WaitsAfter(c, f, ticks, x, n);
      TurnsGoOn(c, After(c, f, ticks[..n]), ticks[n..], x, x);
    }
  }

  /** The driving ticks one turn at the loading stop may take. */
  function Turn(patience: nat, trucks: nat): nat { 6 * Enough(patience, trucks) }

  lemma SteadyMoves(c: Config, ticks: seq<Tick>, pace: real, beat: real)
    requires AllSteady(c, ticks, pace, beat)
    ensures Moving(ticks)
  {
    hide Reach;
  }

  /** One turn's driving ticks bring the turn on. */
  lemma TurnEnds(c: Config, f: Fleet, ticks: seq<Tick>, pace: real, beat: real, patience: nat, x: nat)
    requires c.Valid() && Roomy(c) && c.groups == [] && FleetOk(c, f) && x < |f.trucks| && OnPlan(c, f.trucks)
    requires Outlasts(c, patience, pace, beat) && AllSteady(c, ticks, pace, beat) && DrivesForward(ticks) && Moving(ticks)
    requires SingleFile(c, f.trucks) && Waits(c, f, ticks, x) && Driving(ticks) >= Turn(patience, |f.trucks|) > 0
    ensures var n := |f.trucks|; Place(x, n, Closer(c, f.trucks)) < Place(x, n, Closer(c, After(c, f, ticks).trucks))
  {
    hide After, FleetOk, SingleFile, Waits, OnPlan, Outlasts, AllSteady, DrivesForward, Moving;
    hide Driving, Enough, StaysNear, Work, Place;
    var n := |f.trucks|;
    if Place(x, n, Closer(c, f.trucks)) >= Place(x, n, Closer(c, After(c, f, ticks).trucks)) {
      TurnStays(c, f, ticks, x);
      var b := Closer(c, f.trucks);
      NearPilesUp(c, f, ticks, pace, beat, patience, b, 6);
      NearWork(c, f, ticks, b);
    }
  }

  lemma {:induction false} TurnsPass(
    c: Config, f: Fleet, ticks: seq<Tick>, pace: real, beat: real, patience: nat, x: nat, m: nat)
    requires c.Valid() && Roomy(c) && c.groups == [] && FleetOk(c, f) && x < |f.trucks| && OnPlan(c, f.trucks)
    requires Outlasts(c, patience, pace, beat) && AllSteady(c, ticks, pace, beat) && DrivesForward(ticks) && Moving(ticks)
    requires SingleFile(c, f.trucks) && Waits(c, f, ticks, x) && Turn(patience, |f.trucks|) > 0
    requires Driving(ticks) >= Turn(patience, |f.trucks|) * m
    ensures var n := |f.trucks|; Place(x, n, Closer(c, f.trucks)) + m <= Place(x, n, Closer(c, After(c, f, ticks).trucks))
    decreases m
  {
    hide After, FleetOk, SingleFile, Waits, OnPlan, Outlasts, AllSteady, DrivesForward, Driving, Turn, Work, Place;
    if m == 0 {
      TurnsGoOn(c, f, ticks, x, x);
    } else {
      var turn := Turn(patience, |f.trucks|);
      assert turn * m == turn * (m - 1) + turn && 0 <= turn * (m - 1);
      var a := CutOff(ticks, turn);
      SteadyPart(c, ticks, a, pace, beat);
      SteadyMoves(c, ticks[..a], pace, beat);
      SteadyMoves(c, ticks[a..], pace, beat);
      WaitsBefore(c, f, ticks, x, a);
      WaitsAfter(c, f, ticks, x, a);
      TurnsPass(c, f, ticks[..a], pace, beat, patience, x, m - 1);
      OutlastsPositive(c, patience, pace, beat);
      StuckHoldsBack(c, f, ticks[..a], pace, beat, x);
      AfterInSingleFile(c, f, ticks[..a]);
      TurnEnds(c, After(c, f, ticks[..a]), ticks[a..], pace, beat, patience, x);
    }
  }

  lemma TurnIsPositive(c: Config, patience: nat, pace: real, beat: real, trucks: nat)
    requires c.Valid() && Outlasts(c, patience, pace, beat)
    ensures Turn(patience, trucks) > 0
  {
    assert patience > 0 by {
      TimesStep(0, pace);
    }
    PatienceIsLess(patience, trucks);
  }

  lemma PlacesEnd(c: Config, ts: seq<Truck>, us: seq<Truck>, x: nat)
    requires x < |ts| == |us| && AtLoadingStop(us[x])
    ensures Place(x, |ts|, Closer(c, us)) < Place(x, |ts|, Closer(c, ts)) + |ts|
  {
    AtStopIsNotNear(c, us[x]);
  }

  /** After a turn for each truck, x has left the loading stop, if it was there. */
  lemma LeavesTheStop(c: Config, f: Fleet, ticks: seq<Tick>, pace: real, beat: real, patience: nat, x: nat)
    returns (p: nat)
    requires c.Valid() && Roomy(c) && c.groups == [] && FleetOk(c, f) && x < |f.trucks| && OnPlan(c, f.trucks)
    requires Outlasts(c, patience, pace, beat) && AllSteady(c, ticks, pace, beat) && DrivesForward(ticks)
    requires SingleFile(c, f.trucks) && Driving(ticks) >= Turn(patience, |f.trucks|) * |f.trucks|
    ensures p <= |ticks| && DrivesForward(ticks[..p]) && !AtLoadingStop(After(c, f, ticks[..p]).trucks[x])
  {
    hide After, FleetOk, SingleFile, OnPlan, Outlasts, AllSteady, Driving, Turn;
    SteadyMoves(c, ticks, pace, beat);
    if Waits(c, f, ticks, x) {
      TurnIsPositive(c, patience, pace, beat, |f.trucks|);
      TurnsPass(c, f, ticks, pace, beat, patience, x, |f.trucks|);
      assert ticks[..|ticks|] == ticks;
      WaitsBefore(c, f, ticks, x, |ticks|);
      PlacesEnd(c, f.trucks, After(c, f, ticks).trucks, x);
      assert false;
    }
    p :| p <= |ticks| && !WaitsAt(c, f, ticks, x, p);
  }

  /** The driving ticks one more phase may take, wherever the truck is. */
  function Round(patience: nat, trucks: nat): nat { Turn(patience, trucks) * trucks + Enough(patience, trucks) }

  /** Within a round every single truck of a fleet that leaves the stop in single file enters its next phase. */
  lemma EveryTruckMovesOn(c: Config, f: Fleet, ticks: seq<Tick>, pace: real, beat: real, patience: nat, x: nat)
    requires c.Valid() && Roomy(c) && c.groups == [] && FleetOk(c, f) && x < |f.trucks| && OnPlan(c, f.trucks)
    requires Outlasts(c, patience, pace, beat) && AllSteady(c, ticks, pace, beat) && DrivesForward(ticks)
    requires SingleFile(c, f.trucks) && Driving(ticks) >= Round(patience, |f.trucks|)
    ensures Work(After(c, f, ticks).trucks[x]) >= Work(f.trucks[x]) + 1
  {
    hide After, FleetOk, SingleFile, OnPlan, Outlasts, AllSteady, Driving, Turn, Enough, Work, AtLoadingStop;
    var n := CutOff(ticks, Enough(patience, |f.trucks|));
    SteadyPart(c, ticks, n, pace, beat);
    var p := LeavesTheStop(c, f, ticks[..n], pace, beat, patience, x);
    assert ticks[..n][..p] == ticks[..p] && ticks[p..] == ticks[p..n] + ticks[n..];
    DrivingSplits(ticks[p..n], ticks[n..]);
    GoesOnFrom(c, f, ticks, pace, beat, patience, x, 0, p);
    assert After(c, f, ticks[..0]) == f by {
      NothingAfterNothing(c, f, ticks);
    }
  }

  lemma NothingAfterNothing(c: Config, f: Fleet, ticks: seq<Tick>)
    requires c.Valid() && FleetOk(c, f)
    ensures After(c, f, ticks[..0]) == f
  {
  }

  // ---------------------------------------------------------------------------
  // Every truck delivers
  // ---------------------------------------------------------------------------

  lemma {:induction false} TruckWorkPilesUp(
    c: Config, f: Fleet, ticks: seq<Tick>, pace: real, beat: real, patience: nat, x: nat, m: nat)
    requires c.Valid() && Roomy(c) && c.groups == [] && FleetOk(c, f) && x < |f.trucks| && OnPlan(c, f.trucks)
    requires Outlasts(c, patience, pace, beat) && AllSteady(c, ticks, pace, beat) && DrivesForward(ticks)
    requires SingleFile(c, f.trucks) && Driving(ticks) >= Round(patience, |f.trucks|) * m
    ensures Work(After(c, f, ticks).trucks[x]) >= Work(f.trucks[x]) + m
    decreases m
  {
    hide After, FleetOk, Outlasts, OnPlan, AllSteady, DrivesForward, Work, Driving, Round, SingleFile;
    OutlastsPositive(c, patience, pace, beat);
    if m == 0 {
      StuckHoldsBack(c, f, ticks, pace, beat, x);
    } else {
      var round := Round(patience, |f.trucks|);
      assert round * m == round * (m - 1) + round && 0 <= round * (m - 1);
      var a := CutOff(ticks, round);
      SteadyPart(c, ticks, a, pace, beat);
      SteadyMoves(c, ticks[..a], pace, beat);
      TruckWorkPilesUp(c, f, ticks[..a], pace, beat, patience, x, m - 1);
      StuckHoldsBack(c, f, ticks[..a], pace, beat, x);
      AfterInSingleFile(c, f, ticks[..a]);
      EveryTruckMovesOn(c, After(c, f, ticks[..a]), ticks[a..], pace, beat, patience, x);
      AfterAppends(c, f, ticks[..a], ticks[a..]);
    }
  }

  /** Every single truck delivers k trips within eight rounds a trip and seven more, however many pauses and
      emergency stops fall between the driving ticks. */
  lemma EveryTruckDelivers(
    c: Config, numbers: seq<int>, ticks: seq<Tick>, pace: real, beat: real, patience: nat, x: nat, k: nat)
    requires c.Valid() && Roomy(c) && c.groups == [] && QueueFits(c, |numbers|) && x < |numbers|
    requires Outlasts(c, patience, pace, beat) && AllSteady(c, ticks, pace, beat) && DrivesForward(ticks)
    requires Driving(ticks) >= Round(patience, |numbers|) * (8 * k + 7)
    ensures |TripsOf(Run(c, numbers, ticks).1, x)| >= k
  {
    hide Run, After, FleetOk, OnPlan, AllSteady, Outlasts, DrivesForward, SingleFile, Driving, Round, TripsOf, Roomy;
    StartingFleetWork(c, numbers);
    StartsInSingleFile(c, numbers);
    RunIsAfter(c, numbers, ticks);
    TruckWorkPilesUp(c, StartingFleet(c, numbers), ticks, pace, beat, patience, x, 8 * k + 7);
    TripsAreCycles(c, numbers, ticks, x);
  }

  lemma TripsAreCycles(c: Config, numbers: seq<int>, ticks: seq<Tick>, x: nat)
    requires c.Valid() && QueueFits(c, |numbers|) && DrivesForward(ticks) && x < |numbers|
    ensures var r := Run(c, numbers, ticks); r.0.trucks[x].cycle == |TripsOf(r.1, x)| + 1
  {
    hide Run, RunMarks, TripsOf, TotalTime, TripOk, DistancesAgree;
    RunBalances(c, numbers, ticks);
    var r := Run(c, numbers, ticks);
    assert Balanced(c, OriginOf(c, numbers, x), r.0.trucks[x], RunMarks(c, numbers, ticks)[x], TripsOf(r.1, x), r.0.elapsed);
  }
}
