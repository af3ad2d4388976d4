/** The controller on the truck and the one on the laptop agree step by step, and
    their distances are ordered and grow with speed. */
module Lockstep {
  import opened Options
  import opened Clock
  import S = SafetyControl
  import E = EmergencyControl

  // ---------------------------------------------------------------------------
  // The three distances
  // ---------------------------------------------------------------------------

  /** The configured times and standing distances are ordered. */
  predicate OrderedParameters(p: S.Parameters) {
    && p.emergencyTime <= p.criticalTime <= p.warningTime
    && p.stationaryEmergency <= p.stationaryCritical <= p.stationaryWarning
    && p.reactionTime >= 0.0
  }

  lemma LongerTravels(speed: real, a: real, b: real)
    requires speed >= 0.0 && a <= b
    ensures S.Travelled(speed, a) <= S.Travelled(speed, b)
  {
  }

  lemma FasterTravels(v: real, w: real, time: real)
    requires v <= w && time >= 0.0
    ensures S.Travelled(v, time) <= S.Travelled(w, time)
  {
  }

  lemma NoTimeNoTravel(speed: real)
    ensures S.Travelled(speed, 0.0) == 0.0
  {
  }

  lemma OrderedAt(p: S.Parameters, speed: real, braking: real)
    requires OrderedParameters(p) && speed >= 0.0
    ensures var t := S.ThresholdsAt(p, speed, braking); t.emergency <= t.critical <= t.warning
  {
    hide S.Travelled;
    LongerTravels(speed, p.emergencyTime, p.criticalTime);
    LongerTravels(speed, p.criticalTime, p.warningTime);
    LongerTravels(speed, 0.0, p.reactionTime);
    NoTimeNoTravel(speed);
  }

  /** Emergency within critical within warning, at every speed. */
  lemma DistancesAreOrdered(p: S.Parameters, speed: real)
    requires OrderedParameters(p)
    ensures var t := S.ThresholdsFor(p, speed); t.emergency <= t.critical <= t.warning
  {
    hide S.ThresholdsAt, S.BrakingDistance;
    var v := S.NonNegative(speed);
    OrderedAt(p, v, S.BrakingDistance(v, S.Max(p.brakingDeceleration, 0.01)));
  }

  lemma BrakingGrows(v: real, w: real, deceleration: real)
    requires 0.0 <= v <= w && deceleration > 0.0
    ensures S.BrakingDistance(v, deceleration) <= S.BrakingDistance(w, deceleration)
  {
    SquareGrows(v, w);
    QuotientKeepsOrder(v * v, w * w, 2.0 * deceleration);
  }

  lemma SquareGrows(v: real, w: real)
    requires 0.0 <= v <= w
    ensures v * v <= w * w
  {
    FasterTravels(v, w, v);
    LongerTravels(w, v, w);
  }

  lemma QuotientKeepsOrder(a: real, b: real, d: real)
    requires a <= b && d > 0.0
    ensures a / d <= b / d
  {
  }

  lemma GrowsAt(p: S.Parameters, v: real, w: real, braking: real, longer: real)
    requires p.emergencyTime >= 0.0 && p.criticalTime >= 0.0 && p.warningTime >= 0.0 && p.reactionTime >= 0.0
    requires v <= w && braking <= longer
    ensures var s, f := S.ThresholdsAt(p, v, braking), S.ThresholdsAt(p, w, longer);
            s.emergency <= f.emergency && s.critical <= f.critical && s.warning <= f.warning
  {
    hide S.Travelled;
    FasterTravels(v, w, p.emergencyTime);
    FasterTravels(v, w, p.criticalTime);
    FasterTravels(v, w, p.warningTime);
    FasterTravels(v, w, p.reactionTime);
  }

  /** No distance shrinks when the truck goes faster. */
  lemma DistancesGrowWithSpeed(p: S.Parameters, slow: real, fast: real)
    requires p.emergencyTime >= 0.0 && p.criticalTime >= 0.0 && p.warningTime >= 0.0 && p.reactionTime >= 0.0
    requires slow <= fast
    ensures var s, f := S.ThresholdsFor(p, slow), S.ThresholdsFor(p, fast);
            s.emergency <= f.emergency && s.critical <= f.critical && s.warning <= f.warning
  {
    hide S.ThresholdsAt, S.BrakingDistance;
    var v, w, d := S.NonNegative(slow), S.NonNegative(fast), S.Max(p.brakingDeceleration, 0.01);
    BrakingGrows(v, w, d);
    GrowsAt(p, v, w, S.BrakingDistance(v, d), S.BrakingDistance(w, d));
  }

  // ---------------------------------------------------------------------------
  // Equal parameters
  // ---------------------------------------------------------------------------

  predicate SameParameters(s: S.Parameters, e: E.Parameters) {
    && e.warningTime == s.warningTime && e.criticalTime == s.criticalTime && e.emergencyTime == s.emergencyTime
    && e.stationaryWarning == s.stationaryWarning && e.stationaryCritical == s.stationaryCritical
    && e.stationaryEmergency == s.stationaryEmergency && e.reactionTime == s.reactionTime
    && e.brakingDeceleration == s.brakingDeceleration && e.safetyMargin == s.safetyMargin
    && e.emergencyPersistence == s.emergencyPersistence
  }

  /** The truck's controller takes no deceleration below 0.01, the laptop's does:
      their braking distances agree exactly at standstill or from 0.01 on. */
  lemma BrakingAgreesExactly(speed: real, deceleration: real)
    requires speed >= 0.0 && deceleration > 0.0
    ensures S.BrakingDistance(speed, S.Max(deceleration, 0.01)) == S.BrakingDistance(speed, deceleration)
            <==> deceleration >= 0.01 || speed == 0.0
  {
    if deceleration < 0.01 && speed > 0.0 {
      BrakingDiffers(speed, deceleration, 0.01);
    }
  }

  lemma BrakingDiffers(speed: real, weak: real, strong: real)
    requires speed > 0.0 && 0.0 < weak < strong
    ensures S.BrakingDistance(speed, weak) > S.BrakingDistance(speed, strong)
  {
    var square := SquareOf(speed);
    LargerDivisor(square, 2.0 * weak, 2.0 * strong);
  }

  lemma SquareOf(x: real) returns (square: real)
    requires x > 0.0
    ensures square == x * x && square > 0.0
  {
    square := x * x;
    var inverse := 1.0 / x;
    assert inverse * x == 1.0;
    assert inverse * square == inverse * x * x;
    SquareGrows(0.0, x);
  }

  lemma LargerDivisor(a: real, small: real, large: real)
    requires a > 0.0 && 0.0 < small < large
    ensures a / small > a / large
  {
    var q := a / large;
    assert q * large == a && q > 0.0;
    assert q * small < a;
    QuotientAbove(a, small, q);
  }

  lemma QuotientAbove(a: real, d: real, q: real)
    requires d > 0.0 && q * d < a
    ensures q < a / d
  {
    assert a / d * d == a;
  }

  lemma DistancesAgree(s: S.Parameters, e: E.Parameters, speed: real)
    requires SameParameters(s, e) && s.brakingDeceleration >= 0.01 && speed >= 0.0
    ensures S.ThresholdsFor(s, speed) == E.Distances(e, speed)
  {
    hide S.BrakingDistance;
  }

  // ---------------------------------------------------------------------------
  // Lockstep
  // ---------------------------------------------------------------------------

  /** What both controllers are given at one step. */
  datatype Frame = Frame(at: int, speed: real, direction: S.Direction, readings: seq<E.Reading>)

  /** Full coverage, known direction, and at or above the moving floor. */
  predicate Comparable(s: S.Parameters, e: E.Parameters, f: Frame) {
    && E.CoverageComplete(E.Valid(e, f.at, f.readings))
    && !f.direction.Unknown?
    && 0.0 <= f.speed && s.movingSpeedFloor <= f.speed
  }

  /** The nearest range of the frame, as both controllers get it. */
  function NearestIn(e: E.Parameters, f: Frame): real {
    match E.Nearest(E.Valid(e, f.at, f.readings)) case Some(r) => r case None => -1.0
  }

  function InputOf(e: E.Parameters, f: Frame): S.Input {
    S.Input(Shown(f.at), f.speed, f.direction, true, true, NearestIn(e, f))
  }

  function TruckAfter(s: S.Parameters, e: E.Parameters, frames: seq<Frame>): S.Control {
    if frames == [] then S.INITIAL
    else S.Evaluate(s, TruckAfter(s, e, frames[..|frames| - 1]), InputOf(e, frames[|frames| - 1])).0
  }

  function LaptopAfter(e: E.Parameters, frames: seq<Frame>): E.Control
    requires e.brakingDeceleration > 0.0
  {
    if frames == [] then E.INITIAL
    else
      var f := frames[|frames| - 1];
      E.Evaluate(e, LaptopAfter(e, frames[..|frames| - 1]), f.at, f.speed, f.readings).0
  }

  /** The level each reports for frame k. */
  function TruckLevel(s: S.Parameters, e: E.Parameters, frames: seq<Frame>, k: nat): S.SafetyState
    requires k < |frames|
  {
    S.Evaluate(s, TruckAfter(s, e, frames[..k]), InputOf(e, frames[k])).1.state
  }

  function LaptopLevel(e: E.Parameters, frames: seq<Frame>, k: nat): E.Level
    requires k < |frames| && e.brakingDeceleration > 0.0
  {
    E.Evaluate(e, LaptopAfter(e, frames[..k]), frames[k].at, frames[k].speed, frames[k].readings).1.level
  }

  predicate SameLevel(a: S.SafetyState, b: E.Level) {
    match b
    case Safe => a.Safe?
    case Warning => a.Warning?
    case Critical => a.Critical?
    case EmergencyStop => a.EmergencyStop?
  }

  /** Frames in order of time, close enough for the truck's wrapping clock. */
  predicate InOrder(s: S.Parameters, frames: seq<Frame>) {
    forall k | 0 < k < |frames| ::
      frames[k - 1].at <= frames[k].at && frames[k].at - frames[k - 1].at <= WRAP - s.emergencyPersistence
  }

  /** The two states correspond after a frame at time `last`. */
  ghost predicate Corresponds(s: S.Parameters, a: S.Control, b: E.Control, last: int) {
    && !a.fault
    && (a.motorCut ==> a.latched) && (a.motorCut <==> b.latchedAt.Some?)
    && (!a.motorCut ==>
          && (a.obstacle <==> b.candidateSince.Some?)
          && (a.obstacle ==>
                && a.obstacleSince == Shown(b.candidateSince.value)
                && 0 <= last - b.candidateSince.value < s.emergencyPersistence))
  }

  lemma CoveredHasNearest(e: E.Parameters, f: Frame)
    requires E.CoverageComplete(E.Valid(e, f.at, f.readings))
    ensures E.Nearest(E.Valid(e, f.at, f.readings)) == Some(NearestIn(e, f))
  {
  }

  /** The persistence test comes out alike on the wrapping and on the unbounded clock. */
  lemma MaturesAlike(s: S.Parameters, now: int, last: int, since: int)
    requires last <= now && now - last <= WRAP - s.emergencyPersistence
    requires since == now || 0 <= last - since < s.emergencyPersistence
    ensures IntervalElapsed(Shown(now), Shown(since), s.emergencyPersistence) <==> now - since >= s.emergencyPersistence
  {
    ElapsedIsTrue(now, since);
  }

  lemma StepCorresponds(s: S.Parameters, e: E.Parameters, a: S.Control, b: E.Control, last: int, f: Frame)
    requires s.latchMotorCut && SameParameters(s, e) && s.brakingDeceleration >= 0.01 && Comparable(s, e, f)
    requires Corresponds(s, a, b, last) && last <= f.at && f.at - last <= WRAP - s.emergencyPersistence
    ensures var x, y := S.Evaluate(s, a, InputOf(e, f)), E.Evaluate(e, b, f.at, f.speed, f.readings);
            Corresponds(s, x.0, y.0, f.at) && SameLevel(x.1.state, y.1.level)
  {
    hide S.ThresholdsFor, E.Distances, E.Nearest, E.Valid, NearestIn, Shown, IntervalElapsed;
    DistancesAgree(s, e, f.speed);
    CoveredHasNearest(e, f);
    var since := if b.candidateSince.Some? then b.candidateSince.value else f.at;
    if !a.motorCut {
      MaturesAlike(s, f.at, last, since);
    }
  }

  lemma {:induction false} RunsCorrespond(s: S.Parameters, e: E.Parameters, frames: seq<Frame>)
    requires s.latchMotorCut && SameParameters(s, e) && s.brakingDeceleration >= 0.01
    requires InOrder(s, frames) && frames != [] && forall f | f in frames :: Comparable(s, e, f)
    ensures Corresponds(s, TruckAfter(s, e, frames), LaptopAfter(e, frames), frames[|frames| - 1].at)
    ensures SameLevel(TruckLevel(s, e, frames, |frames| - 1), LaptopLevel(e, frames, |frames| - 1))
  {
    hide S.Evaluate, E.Evaluate, Comparable, SameLevel;
    var last, init := |frames| - 1, frames[..|frames| - 1];
    var before := if last == 0 then frames[0].at else frames[last - 1].at;
    if init != [] {
      RunsCorrespond(s, e, init);
    }
    assert Corresponds(s, TruckAfter(s, e, init), LaptopAfter(e, init), before);
    assert frames[last] in frames;
    StepCorresponds(s, e, TruckAfter(s, e, init), LaptopAfter(e, init), before, frames[last]);
  }

  /** Lockstep agreement: on any run over comparable frames both report the same level at every step. */
  lemma LevelsAgree(s: S.Parameters, e: E.Parameters, frames: seq<Frame>, k: nat)
    requires s.latchMotorCut && SameParameters(s, e) && s.brakingDeceleration >= 0.01
    requires InOrder(s, frames) && k < |frames| && forall f | f in frames :: Comparable(s, e, f)
    ensures SameLevel(TruckLevel(s, e, frames, k), LaptopLevel(e, frames, k))
  {
    hide S.Evaluate, E.Evaluate, Comparable, SameLevel, TruckAfter, LaptopAfter;
    var prefix := frames[..k + 1];
    RunsCorrespond(s, e, prefix);
    assert prefix[..k] == frames[..k];
  }
}
