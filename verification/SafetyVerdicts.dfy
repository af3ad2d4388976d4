/** What an evaluation reports, for every state and input: each state and each reason exactly when, in terms of
    direction, coverage, range, the three distances and the time a hazard has lasted. */
module SafetyVerdicts {
  import opened Clock
  import opened SafetyControl

  // ---------------------------------------------------------------------------
  // The three distances
  // ---------------------------------------------------------------------------

  /** w is the greatest of three lengths. */
  predicate IsGreatest(w: real, a: real, b: real, c: real) { w >= a && w >= b && w >= c && (w == a || w == b || w == c) }

  /** Backwards counts as standing. */
  function Forward(speed: real): real { if speed > 0.0 then speed else 0.0 }

  /** How far the truck comes to a halt when braking from this speed. */
  function Braking(p: Parameters, speed: real): real {
    var v, d := Forward(speed), if p.brakingDeceleration > 0.01 then p.brakingDeceleration else 0.01;
    v * v / (2.0 * d)
  }

  /** How far this speed takes the truck in this time. */
  function Way(v: real, time: real): real { v * time }

  /** At speed v, with this braking distance: each distance is the greatest of the standing one, the way in its time
      and, but for the emergency distance, the way needed to stop with the margin. */
  predicate DistancesAt(t: Thresholds, p: Parameters, v: real, braking: real) {
    var stopping := braking + p.safetyMargin;
    && IsGreatest(t.warning, p.stationaryWarning, Way(v, p.warningTime), Way(v, p.reactionTime) + stopping)
    && IsGreatest(t.critical, p.stationaryCritical, Way(v, p.criticalTime), stopping)
    && IsGreatest(t.emergency, p.stationaryEmergency, Way(v, p.emergencyTime), p.stationaryEmergency)
  }

  lemma WaysAgree(v: real, time: real)
    ensures Travelled(v, time) == Way(v, time)
  {
  }

  lemma ThresholdsAtSpeed(p: Parameters, v: real, braking: real)
    ensures DistancesAt(ThresholdsAt(p, v, braking), p, v, braking)
  {
    hide Travelled, Way;
    WaysAgree(v, p.warningTime);
    WaysAgree(v, p.criticalTime);
    WaysAgree(v, p.emergencyTime);
    WaysAgree(v, p.reactionTime);
  }

  lemma DistancesExactly(p: Parameters, speed: real)
    ensures DistancesAt(ThresholdsFor(p, speed), p, Forward(speed), Braking(p, speed))
  {
    hide BrakingDistance, Braking, DistancesAt, ThresholdsAt, Forward;
    SpeedIsForward(speed);
    BrakingIsBraking(p, speed);
    ThresholdsAtSpeed(p, Forward(speed), Braking(p, speed));
  }

  lemma SpeedIsForward(speed: real)
    ensures NonNegative(speed) == Forward(speed)
  {
  }

  lemma BrakingIsBraking(p: Parameters, speed: real)
    ensures BrakingDistance(NonNegative(speed), Max(p.brakingDeceleration, 0.01)) == Braking(p, speed)
  {
  }

  // ---------------------------------------------------------------------------
  // What the truck sees
  // ---------------------------------------------------------------------------

  predicate Drives(p: Parameters, i: Input) { i.speed >= p.movingSpeedFloor || 0.0 >= p.movingSpeedFloor }

  /** The truck sees where it is going. */
  predicate Sees(i: Input) { !i.direction.Unknown? && i.coverage && i.hasRange }

  /** A range is there and within the distance. */
  predicate Within(i: Input, distance: real) { i.hasRange && i.nearest <= distance }

  /** Loss of sight has lasted its time at this evaluation while the truck drives. */
  predicate BlindLongEnough(p: Parameters, s: Control, i: Input) {
    && Drives(p, i) && !Sees(i)
    && ElapsedMs(i.now, if s.fault then s.faultSince else i.now) >= p.sensorFaultPersistence
  }

  /** So has an obstacle within the emergency distance. */
  predicate ObstacleLongEnough(p: Parameters, s: Control, i: Input) {
    && Drives(p, i) && Within(i, ThresholdsFor(p, i.speed).emergency)
    && ElapsedMs(i.now, if s.obstacle then s.obstacleSince else i.now) >= p.emergencyPersistence
  }

  /** The evaluation neither finds the motor latched nor cuts it. */
  predicate Runs(p: Parameters, s: Control, i: Input) {
    !(s.motorCut && s.latched) && !BlindLongEnough(p, s, i) && !ObstacleLongEnough(p, s, i)
  }

  // ---------------------------------------------------------------------------
  // The verdict
  // ---------------------------------------------------------------------------

  /** The fields on the way to a verdict: the candidates of the two hazards brought up to date. */
  function Tracked(p: Parameters, s: Control, i: Input): Control { TrackObstacle(p, TrackFault(p, s, i), i) }

  lemma SightExactly(p: Parameters, s: Control, i: Input)
    ensures CoverageFault(i) <==> !Sees(i)
    ensures Moving(p, i) <==> Drives(p, i)
    ensures InsideEmergency(p, i) <==> Within(i, ThresholdsFor(p, i.speed).emergency)
  {
    hide ThresholdsFor;
  }

  lemma TrackedExactly(p: Parameters, s: Control, i: Input)
    ensures var blind, near := !Sees(i) && Drives(p, i), Within(i, ThresholdsFor(p, i.speed).emergency) && Drives(p, i);
            var f, r := TrackFault(p, s, i), Tracked(p, s, i);
            && f.obstacle == s.obstacle && f.obstacleSince == s.obstacleSince
            && f.fault == r.fault == blind && f.faultSince == r.faultSince
            && (blind ==> r.faultSince == if s.fault then s.faultSince else i.now)
            && r.obstacle == near && (near ==> r.obstacleSince == if s.obstacle then s.obstacleSince else i.now)
            && (r.motorCut, r.latched, r.latchedAt, r.cutReason) == (s.motorCut, s.latched, s.latchedAt, s.cutReason)
            && (f.motorCut, f.latched, f.latchedAt, f.cutReason) == (s.motorCut, s.latched, s.latchedAt, s.cutReason)
  {
    hide CoverageFault, InsideEmergency, Moving, Sees, Drives, Within, ThresholdsFor;
    SightExactly(p, s, i);
  }

  /** An evaluation stops, or else judges the tracked fields. */
  lemma StopsOrJudges(p: Parameters, s: Control, i: Input)
    ensures var (r, out) := Evaluate(p, s, i);
            if s.motorCut && s.latched then
              r == s && out == Report(p, s, i, EmergencyStop, if s.cutReason.ManualTest? then ManualTest else Latched)
            else if BlindLongEnough(p, s, i) then
              && r == TriggerCut(p, TrackFault(p, s, i), i.now, SensorFaultStop, false)
              && out == Report(p, r, i, EmergencyStop, SensorFaultStop)
            else if ObstacleLongEnough(p, s, i) then
              && r == TriggerCut(p, Tracked(p, s, i), i.now, ObstacleStop, false)
              && out == Report(p, r, i, EmergencyStop, ObstacleStop)
            else (r, out) == Judge(p, Tracked(p, s, i), i)
  {
    hide TrackFault, TrackObstacle, Judge, Report, TriggerCut, Sees, Drives, Within, ThresholdsFor, ElapsedMs;
    TrackedExactly(p, s, i);
  }

  lemma JudgeExactly(p: Parameters, s: Control, i: Input)
    ensures var (r, out) := Judge(p, s, i);
            var t := ThresholdsFor(p, i.speed);
            var close := Within(i, t.emergency) || Within(i, t.critical);
            && (out.state.Critical? <==> close)
            && (out.state.SensorFault? <==> !close && !Sees(i))
            && (out.state.Warning? <==> !close && Sees(i) && i.nearest <= t.warning)
            && (out.state.Safe? <==> !close && Sees(i) && i.nearest > t.warning)
            && out == Report(p, r, i, out.state,
                 if Within(i, t.emergency) then (if Drives(p, i) then EmergencyPersistence else StationaryObstacle)
                 else if close then CriticalDistance
                 else if i.direction.Unknown? then DirectionUnknown
                 else if !Sees(i) then RangeCoverageFault
                 else if i.nearest <= t.warning then WarningDistance else Clear)
            && r == if out.state.Safe? && s.motorCut && !s.latched then s.(motorCut := false, latchedAt := 0, cutReason := Clear)
                    else s
  {
    hide ThresholdsFor, Drives, Moving;
    SightExactly(p, s, i);
  }

  /** Every state and reason, each if and only if; the figures are those of the input and of the fields afterwards. */
  lemma VerdictExactly(p: Parameters, s: Control, i: Input)
    ensures var (r, out) := Evaluate(p, s, i);
            var t, latched := ThresholdsFor(p, i.speed), s.motorCut && s.latched;
            var close := Within(i, t.emergency) || Within(i, t.critical);
            && (out.state.EmergencyStop? <==> !Runs(p, s, i))
            && (out.state.Critical? <==> Runs(p, s, i) && close)
            && (out.state.SensorFault? <==> Runs(p, s, i) && !close && !Sees(i))
            && (out.state.Warning? <==> Runs(p, s, i) && !close && Sees(i) && i.nearest <= t.warning)
            && (out.state.Safe? <==> Runs(p, s, i) && !close && Sees(i) && i.nearest > t.warning)
            && (out.reason.ManualTest? <==> latched && s.cutReason.ManualTest?)
            && (out.reason.Latched? <==> latched && !s.cutReason.ManualTest?)
            && (out.reason.SensorFaultStop? <==> !latched && BlindLongEnough(p, s, i))
            && (out.reason.ObstacleStop? <==> !latched && !BlindLongEnough(p, s, i) && ObstacleLongEnough(p, s, i))
            && (out.reason.EmergencyPersistence? <==> out.state.Critical? && Within(i, t.emergency) && Drives(p, i))
            && (out.reason.StationaryObstacle? <==> out.state.Critical? && Within(i, t.emergency) && !Drives(p, i))
            && (out.reason.CriticalDistance? <==> out.state.Critical? && !Within(i, t.emergency))
            && (out.reason.DirectionUnknown? <==> out.state.SensorFault? && i.direction.Unknown?)
            && (out.reason.RangeCoverageFault? <==> out.state.SensorFault? && !i.direction.Unknown?)
            && (out.reason.WarningDistance? <==> out.state.Warning?)
            && (out.reason.Clear? <==> out.state.Safe?)
            && out.thresholds == t && out.nearest == (if i.hasRange then i.nearest else -1.0)
            && out.motorCut == r.motorCut && out.latched == r.latched && out.latchedAt == r.latchedAt
  {
    hide Evaluate, Judge, Tracked, TriggerCut, ThresholdsFor, BlindLongEnough, ObstacleLongEnough, Drives, Within;
    StopsOrJudges(p, s, i);
    JudgeExactly(p, Tracked(p, s, i), i);
  }

  /** What an evaluation leaves in the fields. */
  lemma FieldsExactly(p: Parameters, s: Control, i: Input)
    ensures var (r, out) := Evaluate(p, s, i);
            if s.motorCut && s.latched then r == s
            else
              var blind, near := !Sees(i) && Drives(p, i), Within(i, ThresholdsFor(p, i.speed).emergency) && Drives(p, i);
              && r.fault == blind && (blind ==> r.faultSince == if s.fault then s.faultSince else i.now)
              && (if BlindLongEnough(p, s, i) then r.obstacle == s.obstacle && r.obstacleSince == s.obstacleSince
                  else r.obstacle == near && (near ==> r.obstacleSince == if s.obstacle then s.obstacleSince else i.now))
              && (if out.state.EmergencyStop? then
                    && r.motorCut && r.latched == p.latchMotorCut && r.cutReason == out.reason
                    && r.latchedAt == if s.motorCut then s.latchedAt else i.now
                  else if out.state.Safe? && s.motorCut then
                    !r.motorCut && !r.latched && r.latchedAt == 0 && r.cutReason.Clear?
                  else
                    r.motorCut == s.motorCut && r.latched == s.latched && r.latchedAt == s.latchedAt
                    && r.cutReason == s.cutReason)
  {
    hide Evaluate, Judge, Tracked, TrackFault, ThresholdsFor, BlindLongEnough, ObstacleLongEnough, Drives, Within, Sees;
    StopsOrJudges(p, s, i);
    TrackedExactly(p, s, i);
    JudgeExactly(p, Tracked(p, s, i), i);
  }

  /** With the distances in order the truck is reported safe if and only if the motor is not latched, it sees where it
      is going and nothing is within the warning distance. */
  lemma SafeExactly(p: Parameters, s: Control, i: Input)
    requires var t := ThresholdsFor(p, i.speed); t.emergency <= t.critical <= t.warning
    ensures Evaluate(p, s, i).1.state.Safe? <==>
            && !(s.motorCut && s.latched)
            && !i.direction.Unknown? && i.coverage && i.hasRange && i.nearest > ThresholdsFor(p, i.speed).warning
  {
    hide Evaluate, ThresholdsFor;
    VerdictExactly(p, s, i);
  }

  /** A reset is accepted exactly at no more than its greatest speed, with full sight and nothing within the warning
      distance, and then clears all but the times of the candidates. */
  lemma ResetExactly(p: Parameters, s: Control, i: Input)
    ensures var (r, ok) := Reset(p, s, i);
            && (ok <==> && i.speed <= p.resetMaxSpeed && 0.0 <= p.resetMaxSpeed
                        && i.coverage && i.hasRange && i.nearest > ThresholdsFor(p, i.speed).warning)
            && (ok ==> !r.motorCut && !r.latched && r.latchedAt == 0 && r.cutReason.Clear? && !r.obstacle && !r.fault)
            && (!ok ==> r == s)
  {
    hide ThresholdsFor;
  }
}
