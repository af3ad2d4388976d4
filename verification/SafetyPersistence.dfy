/** When the safety controller cuts the motor and what releases it: over whole
    runs, in unbounded time, with the controller's clock wrapping at 32 bits. */
module SafetyPersistence {
  import opened Clock
  import opened SafetyControl

  /** What happens to the controller, each at an unbounded time. */
  datatype Event =
    | Evaluated(at: int, input: Input)
    | ResetAsked(at: int, input: Input)
    | Tested(at: int)

  function After(p: Parameters, s: Control, e: Event): Control {
    match e
    case Evaluated(_, i) => Evaluate(p, s, i).0
    case ResetAsked(_, i) => Reset(p, s, i).0
    case Tested(at) => TriggerCut(p, s, Shown(at), ManualTest, true)
  }

  function Run(p: Parameters, events: seq<Event>): Control {
    if events == [] then INITIAL else After(p, Run(p, events[..|events| - 1]), events[|events| - 1])
  }

  // ---------------------------------------------------------------------------
  // The requirement, stated on the history alone
  // ---------------------------------------------------------------------------

  datatype Sample = Sample(at: int, input: Input)

  predicate Releases(p: Parameters, e: Event) { e.ResetAsked? && CanReset(p, e.input) }

  /** The evaluations since the last reset whose guard held. */
  function Trail(p: Parameters, events: seq<Event>): seq<Sample> {
    if events == [] then []
    else
      var last, before := events[|events| - 1], Trail(p, events[..|events| - 1]);
      if Releases(p, last) then []
      else if last.Evaluated? then before + [Sample(last.at, last.input)]
      else before
  }

  /** Whether a manual test came after the last reset whose guard held. */
  predicate TestedSince(p: Parameters, events: seq<Event>) {
    events != []
    && var last := events[|events| - 1];
       !Releases(p, last) && (last.Tested? || TestedSince(p, events[..|events| - 1]))
  }

  datatype Hazard = Obstacle | Blind

  predicate Present(p: Parameters, h: Hazard, i: Input) {
    Moving(p, i) && if h.Obstacle? then InsideEmergency(p, i) else CoverageFault(i)
  }

  function Persistence(p: Parameters, h: Hazard): U32 {
    if h.Obstacle? then p.emergencyPersistence else p.sensorFaultPersistence
  }

  /** Every evaluation over some span up to now, at least the persistence long, saw the hazard while moving. */
  ghost predicate Persisted(p: Parameters, h: Hazard, trail: seq<Sample>) {
    exists k | 0 <= k < |trail| :: PersistedFrom(p, h, trail, k)
  }

  ghost predicate PersistedFrom(p: Parameters, h: Hazard, trail: seq<Sample>, k: nat)
    requires k < |trail|
  {
    && (forall j | k <= j < |trail| :: Present(p, h, trail[j].input))
    && trail[|trail| - 1].at - trail[k].at >= Persistence(p, h)
  }

  /** At some evaluation since the last release one of the hazards had persisted. */
  ghost predicate EverPersisted(p: Parameters, trail: seq<Sample>) {
    exists n | 0 < n <= |trail| :: PersistedAt(p, trail, n)
  }

  ghost predicate PersistedAt(p: Parameters, trail: seq<Sample>, n: nat)
    requires n <= |trail|
  {
    Persisted(p, Obstacle, trail[..n]) || Persisted(p, Blind, trail[..n])
  }

  ghost predicate InOrder(trail: seq<Sample>) {
    forall j, k | 0 <= j <= k < |trail| :: trail[j].at <= trail[k].at
  }

  /** Evaluations come in order, close enough for the wrapping clock to tell how far apart they are. */
  ghost predicate Regular(p: Parameters, trail: seq<Sample>) {
    && (forall j | 0 <= j < |trail| :: trail[j].input.now == Shown(trail[j].at))
    && InOrder(trail)
    && (forall j | 0 < j < |trail| :: Near(p, trail[j - 1], trail[j]))
  }

  predicate Near(p: Parameters, a: Sample, b: Sample) {
    && b.at - a.at <= WRAP - p.emergencyPersistence
    && b.at - a.at <= WRAP - p.sensorFaultPersistence
  }

  // ---------------------------------------------------------------------------
  // Candidates
  // ---------------------------------------------------------------------------

  /** Where the unbroken stretch of evaluations that saw the hazard begins. */
  function StretchStart(p: Parameters, h: Hazard, trail: seq<Sample>): (k: nat)
    ensures k <= |trail|
    ensures forall j | k <= j < |trail| :: Present(p, h, trail[j].input)
    ensures 0 < k ==> !Present(p, h, trail[k - 1].input)
  {
    if trail == [] || !Present(p, h, trail[|trail| - 1].input) then |trail|
    else StretchStart(p, h, trail[..|trail| - 1])
  }

  /** The longest stretch decides. */
  lemma PersistedExactly(p: Parameters, h: Hazard, trail: seq<Sample>)
    requires InOrder(trail)
    ensures Persisted(p, h, trail) <==>
            StretchStart(p, h, trail) < |trail| && PersistedFrom(p, h, trail, StretchStart(p, h, trail))
  {
    hide Present, Near;
    var start := StretchStart(p, h, trail);
    if k :| 0 <= k < |trail| && PersistedFrom(p, h, trail, k) {
      assert start <= k;
      assert trail[start].at <= trail[k].at;
    }
  }

  lemma StretchGrows(p: Parameters, h: Hazard, trail: seq<Sample>, e: Sample)
    ensures var start, next := StretchStart(p, h, trail), StretchStart(p, h, trail + [e]);
            if Present(p, h, e.input) then next == start else next == |trail| + 1
  {
    assert (trail + [e])[..|trail|] == trail;
  }

  /** The candidate fields hold the current stretch, which has not matured. */
  ghost predicate Tracks(p: Parameters, h: Hazard, trail: seq<Sample>, active: bool, since: U32) {
    var start := StretchStart(p, h, trail);
    && (active <==> start < |trail|)
    && (active ==> since == Shown(trail[start].at) && !PersistedFrom(p, h, trail, start))
  }

  /** One evaluation moves a candidate to the longer trail, and the clock tells exactly whether it has matured. */
  lemma TrackingStep(p: Parameters, h: Hazard, trail: seq<Sample>, e: Sample, active: bool, since: U32)
    requires Regular(p, trail + [e]) && Tracks(p, h, trail, active, since)
    ensures var now, start := trail + [e], StretchStart(p, h, trail + [e]);
            var since' := if active then since else e.input.now;
            && (Present(p, h, e.input) <==> start < |now|)
            && (Present(p, h, e.input) ==>
                  && since' == Shown(now[start].at)
                  && (IntervalElapsed(e.input.now, since', Persistence(p, h)) <==> PersistedFrom(p, h, now, start)))
  {
    hide Present;
    var now := trail + [e];
    StretchGrows(p, h, trail, e);
    if Present(p, h, e.input) {
      var start := StretchStart(p, h, trail);
      StretchEndsPresent(p, h, trail, e, start);
      if active {
        assert Near(p, now[|trail| - 1], now[|trail|]);
        assert now[start] == trail[start] && now[|trail| - 1] == trail[|trail| - 1];
        assert now[start].at <= now[|trail|].at;
        ElapsedIsTrue(e.at, trail[start].at);
      } else {
        ElapsedIsTrue(e.at, e.at);
      }
    }
  }

  lemma StretchEndsPresent(p: Parameters, h: Hazard, trail: seq<Sample>, e: Sample, start: nat)
    requires start <= |trail| && Present(p, h, e.input)
    requires forall j | start <= j < |trail| :: Present(p, h, trail[j].input)
    ensures forall j | start <= j < |trail| + 1 :: Present(p, h, (trail + [e])[j].input)
  {
    hide Present;
  }

  // ---------------------------------------------------------------------------
  // The invariant of every run
  // ---------------------------------------------------------------------------

  ghost predicate Inv(p: Parameters, trail: seq<Sample>, tested: bool, s: Control) {
    && (s.motorCut ==> s.latched)
    && (s.motorCut <==> tested || EverPersisted(p, trail))
    && (!s.motorCut ==>
          && Tracks(p, Obstacle, trail, s.obstacle, s.obstacleSince)
          && Tracks(p, Blind, trail, s.fault, s.faultSince))
  }

  lemma EverPersistedGrows(p: Parameters, trail: seq<Sample>, e: Sample)
    ensures EverPersisted(p, trail + [e]) <==> EverPersisted(p, trail) || PersistedAt(p, trail + [e], |trail| + 1)
  {
    hide Persisted;
    var now := trail + [e];
    forall n | 0 < n <= |trail| ensures PersistedAt(p, now, n) <==> PersistedAt(p, trail, n) {
      assert now[..n] == trail[..n];
    }
    assert PersistedAt(p, now, |now|) ==> EverPersisted(p, now);
    if EverPersisted(p, trail) {
      var n :| 0 < n <= |trail| && PersistedAt(p, trail, n);
      assert PersistedAt(p, now, n);
    }
  }

  /** What an evaluation of an uncut controller comes to, hazard by hazard. */
  lemma EvaluationOutcome(p: Parameters, s: Control, i: Input)
    requires !s.motorCut
    ensures var r := Evaluate(p, s, i);
            var faultSince, obstacleSince := if s.fault then s.faultSince else i.now, if s.obstacle then s.obstacleSince else i.now;
            var blind := Present(p, Blind, i) && IntervalElapsed(i.now, faultSince, p.sensorFaultPersistence);
            var near := Present(p, Obstacle, i) && IntervalElapsed(i.now, obstacleSince, p.emergencyPersistence);
            && (r.0.motorCut <==> blind || near)
            && (r.0.motorCut ==>
                  && r.0.latched == p.latchMotorCut && r.0.latchedAt == i.now
                  && r.0.cutReason == r.1.reason == (if blind then SensorFaultStop else ObstacleStop)
                  && r.1.state == EmergencyStop && r.1.motorCut)
            && (!r.0.motorCut ==>
                  && r.0.fault == Present(p, Blind, i) && (r.0.fault ==> r.0.faultSince == faultSince)
                  && r.0.obstacle == Present(p, Obstacle, i) && (r.0.obstacle ==> r.0.obstacleSince == obstacleSince)
                  && r.1.state != EmergencyStop)
  {
    hide ThresholdsFor;
  }

  lemma LatchedStays(p: Parameters, s: Control, i: Input)
    requires s.motorCut && s.latched
    ensures Evaluate(p, s, i).0 == s && Evaluate(p, s, i).1.state == EmergencyStop
  {
  }

  lemma EvaluationKeepsInv(p: Parameters, trail: seq<Sample>, tested: bool, s: Control, e: Sample)
    requires p.latchMotorCut && Regular(p, trail + [e]) && Inv(p, trail, tested, s)
    ensures Inv(p, trail + [e], tested, Evaluate(p, s, e.input).0)
  {
    hide Present, Evaluate, EverPersisted, PersistedAt, Persisted, PersistedFrom, Near, Regular, StretchStart;
    EverPersistedGrows(p, trail, e);
    if s.motorCut {
      assert Evaluate(p, s, e.input).0 == s by {
        LatchedStays(p, s, e.input);
      }
    } else {
      EvaluationOutcome(p, s, e.input);
      TrackingStep(p, Blind, trail, e, s.fault, s.faultSince);
      TrackingStep(p, Obstacle, trail, e, s.obstacle, s.obstacleSince);
      PersistedNow(p, trail, e);
    }
  }

  lemma PersistedNow(p: Parameters, trail: seq<Sample>, e: Sample)
    requires Regular(p, trail + [e])
    ensures var now := trail + [e];
            var blind, near := StretchStart(p, Blind, now), StretchStart(p, Obstacle, now);
            PersistedAt(p, now, |now|) <==>
              (blind < |now| && PersistedFrom(p, Blind, now, blind)) || (near < |now| && PersistedFrom(p, Obstacle, now, near))
  {
    hide Present, Persisted, PersistedFrom, Near, Regular, StretchStart;
    var now := trail + [e];
    assert now[..|now|] == now;
    RegularInOrder(p, now);
    PersistedExactly(p, Blind, now);
    PersistedExactly(p, Obstacle, now);
  }

  lemma RegularInOrder(p: Parameters, trail: seq<Sample>)
    requires Regular(p, trail)
    ensures InOrder(trail)
  {
  }

  lemma OtherEventsKeepInv(p: Parameters, trail: seq<Sample>, tested: bool, s: Control, e: Event)
    requires p.latchMotorCut && Inv(p, trail, tested, s) && !e.Evaluated?
    ensures Inv(p, if Releases(p, e) then [] else trail, !Releases(p, e) && (tested || e.Tested?), After(p, s, e))
  {
    hide ThresholdsFor;
  }

  lemma {:induction false} RunKeepsInv(p: Parameters, events: seq<Event>)
    requires p.latchMotorCut && forall n | 0 <= n <= |events| :: Regular(p, Trail(p, events[..n]))
    ensures Inv(p, Trail(p, events), TestedSince(p, events), Run(p, events))
  {
    hide ThresholdsFor, Inv, Regular, Evaluate, Reset, TriggerCut, CanReset;
    assert events[..|events|] == events;
    if events == [] {
      StartKeepsInv(p);
    } else {
      var init, last := events[..|events| - 1], events[|events| - 1];
      forall n | 0 <= n <= |init| ensures Regular(p, Trail(p, init[..n])) {
        assert init[..n] == events[..n];
      }
      RunKeepsInv(p, init);
      var s := Run(p, init);
      if last.Evaluated? {
        EvaluationKeepsInv(p, Trail(p, init), TestedSince(p, init), s, Sample(last.at, last.input));
      } else {
        OtherEventsKeepInv(p, Trail(p, init), TestedSince(p, init), s, last);
      }
    }
  }

  lemma StartKeepsInv(p: Parameters)
    ensures Inv(p, [], false, INITIAL)
  {
  }

  /** Exact persistence: with the latch on the motor is cut if and only if, since
      the last release, it was cut by hand or a hazard had persisted at some evaluation. */
  lemma CutExactly(p: Parameters, events: seq<Event>)
    requires p.latchMotorCut && forall n | 0 <= n <= |events| :: Regular(p, Trail(p, events[..n]))
    ensures Run(p, events).motorCut <==> TestedSince(p, events) || EverPersisted(p, Trail(p, events))
    ensures Run(p, events).motorCut ==> Run(p, events).latched
  {
    hide Run, Trail, TestedSince, EverPersisted, Tracks;
    RunKeepsInv(p, events);
  }

  /** What an evaluation reports, by what had persisted when it was made. */
  ghost predicate Attributed(p: Parameters, trail: seq<Sample>, r: (Control, Output), at: int) {
    && (r.0.motorCut <==> Persisted(p, Blind, trail) || Persisted(p, Obstacle, trail))
    && (Persisted(p, Blind, trail) ==> r.1.reason == SensorFaultStop)
    && (Persisted(p, Obstacle, trail) && !Persisted(p, Blind, trail) ==> r.1.reason == ObstacleStop)
    && (r.0.motorCut ==>
          r.1.state == EmergencyStop && r.1.motorCut && r.0.latchedAt == Shown(at) && r.0.cutReason == r.1.reason)
    && (!r.0.motorCut ==> r.1.state != EmergencyStop)
  }

  lemma EvaluationIsAttributed(p: Parameters, trail: seq<Sample>, tested: bool, s: Control, e: Sample)
    requires p.latchMotorCut && Regular(p, trail + [e]) && Inv(p, trail, tested, s)
    requires !s.motorCut
    ensures Attributed(p, trail + [e], Evaluate(p, s, e.input), e.at)
  {
    hide Present, Evaluate, EverPersisted, Persisted, PersistedFrom, Near, StretchStart;
    assert (trail + [e])[|trail|] == e;
    EvaluationOutcome(p, s, e.input);
    TrackingStep(p, Blind, trail, e, s.fault, s.faultSince);
    TrackingStep(p, Obstacle, trail, e, s.obstacle, s.obstacleSince);
    PersistedExactly(p, Blind, trail + [e]);
    PersistedExactly(p, Obstacle, trail + [e]);
  }

  lemma EvaluationExtendsTrail(p: Parameters, events: seq<Event>, e: Event)
    requires e.Evaluated?
    ensures Trail(p, events + [e]) == Trail(p, events) + [Sample(e.at, e.input)]
  {
    assert (events + [e])[..|events|] == events;
  }

  /** The evaluation that cuts says which hazard had persisted, the loss of sight first, and when. */
  lemma CutIsAttributed(p: Parameters, events: seq<Event>, e: Event)
    requires p.latchMotorCut && e.Evaluated? && !Run(p, events).motorCut
    requires forall n | 0 <= n <= |events| + 1 :: Regular(p, Trail(p, (events + [e])[..n]))
    ensures Attributed(p, Trail(p, events + [e]), Evaluate(p, Run(p, events), e.input), e.at)
  {
    hide Attributed, Inv, Regular, Evaluate, Run, TestedSince, Trail;
    var all := events + [e];
    assert all[..|events|] == events && all[..|all|] == all;
    forall n | 0 <= n <= |events| ensures Regular(p, Trail(p, events[..n])) {
      assert events[..n] == all[..n];
    }
    RunKeepsInv(p, events);
    var sample := Sample(e.at, e.input);
    EvaluationExtendsTrail(p, events, e);
    assert Regular(p, Trail(p, all));
    EvaluationIsAttributed(p, Trail(p, events), TestedSince(p, events), Run(p, events), sample);
  }

  // ---------------------------------------------------------------------------
  // Release
  // ---------------------------------------------------------------------------

  /** A latched cut is released only by a reset whose guard holds, whatever the parameters. */
  lemma OnlyResetReleases(p: Parameters, s: Control, e: Event)
    requires s.motorCut && s.latched
    ensures After(p, s, e).motorCut && After(p, s, e).latched <==> !Releases(p, e)
  {
    hide ThresholdsFor;
  }

  /** Re-evaluating the input of an accepted reset cuts again exactly when the
      guard lets through a moving truck that is blind or near, and nothing has to persist. */
  lemma ResetThenEvaluate(p: Parameters, s: Control, i: Input)
    requires CanReset(p, i)
    ensures Evaluate(p, Reset(p, s, i).0, i).0.motorCut <==>
            Moving(p, i) && ((p.sensorFaultPersistence == 0 && i.direction.Unknown?)
                             || (p.emergencyPersistence == 0 && i.nearest <= ThresholdsFor(p, i.speed).emergency))
  {
    hide ThresholdsFor;
  }

  /** As configured, with the reset speed below the moving floor, it never cuts again. */
  lemma ResetNeverCutsAgain(p: Parameters, s: Control, i: Input)
    requires CanReset(p, i) && p.resetMaxSpeed < p.movingSpeedFloor
    ensures !Evaluate(p, Reset(p, s, i).0, i).0.motorCut
  {
    ResetThenEvaluate(p, s, i);
  }

  /** Without the latch persistence is not exact: a sensor fault that cuts leaves
      the obstacle candidate running over an evaluation that was not near. */
  lemma UnlatchedPersistenceFails()
    ensures exists p: Parameters, a: Input, b: Input, c: Input ::
              && !p.latchMotorCut && p.emergencyPersistence > 0
              && !Present(p, Obstacle, b)
              && var s := Evaluate(p, Evaluate(p, INITIAL, a).0, b).0;
                 var r := Evaluate(p, s, c);
                 ElapsedMs(c.now, b.now) < p.emergencyPersistence && r.1.reason == ObstacleStop
  {
    var p := Parameters(2.2, 1.25, 0.65, 0.75, 0.45, 0.22, 0.55, 1.8, 0.25, 350, 0, 0.05, 0.03, false);
    var a := Input(0, 0.1, Forward, true, true, 0.1);
    var b := Input(300, 0.1, Forward, false, false, 0.1);
    var c := Input(400, 0.1, Forward, true, true, 0.1);
    assert ThresholdsFor(p, 0.1).emergency == 0.22;
    assert NonNegative(0.1) == 0.1;
    var s1 := Evaluate(p, INITIAL, a).0;
    assert s1.obstacle && s1.obstacleSince == 0 && !s1.motorCut && !s1.fault;
    var s2 := Evaluate(p, s1, b).0;
    assert s2.motorCut && !s2.latched && s2.obstacle && s2.obstacleSince == 0;
    var r := Evaluate(p, s2, c);
    assert r.1.reason == ObstacleStop;
  }
}
