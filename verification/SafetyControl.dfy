/** The on-truck safety controller: thresholds, persistence of obstacle and
    sensor-fault candidates, and the motor-cut latch. */
module SafetyControl {
  import opened Clock

  datatype Direction = Forward | Reverse | Unknown

  datatype SafetyState = Safe | Warning | Critical | EmergencyStop | SensorFault

  datatype Reason =
    | Clear | WarningDistance | CriticalDistance | EmergencyPersistence | ObstacleStop | StationaryObstacle
    | RangeCoverageFault | SensorFaultStop | DirectionUnknown | ManualTest | Latched

  datatype Parameters = Parameters(
    warningTime: real, criticalTime: real, emergencyTime: real,
    stationaryWarning: real, stationaryCritical: real, stationaryEmergency: real,
    reactionTime: real, brakingDeceleration: real, safetyMargin: real,
    emergencyPersistence: U32, sensorFaultPersistence: U32,
    movingSpeedFloor: real, resetMaxSpeed: real, latchMotorCut: bool)

  datatype Thresholds = Thresholds(warning: real, critical: real, emergency: real)

  datatype Input = Input(
    now: U32, speed: real, direction: Direction, coverage: bool, hasRange: bool, nearest: real)

  datatype Output = Output(
    state: SafetyState, reason: Reason, thresholds: Thresholds,
    motorCut: bool, latched: bool, latchedAt: U32, nearest: real)

  /** The controller's fields. */
  datatype Control = Control(
    motorCut: bool, latched: bool, latchedAt: U32, cutReason: Reason,
    obstacle: bool, obstacleSince: U32, fault: bool, faultSince: U32)

  const INITIAL := Control(false, false, 0, Clear, false, 0, false, 0)

  function Max(a: real, b: real): real { if a > b then a else b }

  function NonNegative(v: real): real { Max(v, 0.0) }

  function BrakingDistance(speed: real, deceleration: real): real
    requires deceleration > 0.0
  {
    speed * speed / (2.0 * deceleration)
  }

  /** How far the truck gets in the given time. */
  function Travelled(speed: real, time: real): real { speed * time }

  /** The three distances at a speed, for a braking distance. */
  function ThresholdsAt(p: Parameters, speed: real, braking: real): Thresholds {
    Thresholds(
      Max(Max(p.stationaryWarning, Travelled(speed, p.warningTime)),
          Travelled(speed, p.reactionTime) + braking + p.safetyMargin),
      Max(Max(p.stationaryCritical, Travelled(speed, p.criticalTime)), braking + p.safetyMargin),
      Max(p.stationaryEmergency, Travelled(speed, p.emergencyTime)))
  }

  function ThresholdsFor(p: Parameters, speedMps: real): Thresholds {
    var speed := NonNegative(speedMps);
    ThresholdsAt(p, speed, BrakingDistance(speed, Max(p.brakingDeceleration, 0.01)))
  }

  predicate Moving(p: Parameters, i: Input) { NonNegative(i.speed) >= p.movingSpeedFloor }

  predicate CoverageFault(i: Input) { i.direction.Unknown? || !i.coverage || !i.hasRange }

  predicate InsideEmergency(p: Parameters, i: Input) {
    i.hasRange && i.nearest <= ThresholdsFor(p, i.speed).emergency
  }

  predicate CanReset(p: Parameters, i: Input) {
    && !(NonNegative(i.speed) > p.resetMaxSpeed)
    && i.coverage && i.hasRange
    && i.nearest > ThresholdsFor(p, i.speed).warning
  }

  function Report(p: Parameters, s: Control, i: Input, state: SafetyState, reason: Reason): Output {
    Output(state, reason, ThresholdsFor(p, i.speed), s.motorCut, s.latched, s.latchedAt,
           if i.hasRange then i.nearest else -1.0)
  }

  function TriggerCut(p: Parameters, s: Control, now: U32, reason: Reason, forceLatch: bool): Control {
    s.(latchedAt := if s.motorCut then s.latchedAt else now, motorCut := true,
       latched := forceLatch || p.latchMotorCut, cutReason := reason)
  }

  /** The sensor-fault candidate after an evaluation. */
  function TrackFault(p: Parameters, s: Control, i: Input): Control {
    if !(CoverageFault(i) && Moving(p, i)) then s.(fault := false)
    else if s.fault then s
    else s.(fault := true, faultSince := i.now)
  }

  /** The obstacle candidate after an evaluation. */
  function TrackObstacle(p: Parameters, s: Control, i: Input): Control {
    if !(InsideEmergency(p, i) && Moving(p, i)) then s.(obstacle := false)
    else if s.obstacle then s
    else s.(obstacle := true, obstacleSince := i.now)
  }

  /** The verdict when neither candidate has matured. */
  function Judge(p: Parameters, s: Control, i: Input): (Control, Output) {
    var t := ThresholdsFor(p, i.speed);
    if InsideEmergency(p, i) && Moving(p, i) then (s, Report(p, s, i, Critical, EmergencyPersistence))
    else if InsideEmergency(p, i) then (s, Report(p, s, i, Critical, StationaryObstacle))
    else if i.hasRange && i.nearest <= t.critical then (s, Report(p, s, i, Critical, CriticalDistance))
    else if CoverageFault(i) then
      (s, Report(p, s, i, SensorFault, if i.direction.Unknown? then DirectionUnknown else RangeCoverageFault))
    else if i.nearest <= t.warning then (s, Report(p, s, i, Warning, WarningDistance))
    else
      var r := if s.motorCut && !s.latched then s.(motorCut := false, latchedAt := 0, cutReason := Clear) else s;
      (r, Report(p, r, i, Safe, Clear))
  }

  function Evaluate(p: Parameters, s: Control, i: Input): (Control, Output) {
    if s.motorCut && s.latched then
      (s, Report(p, s, i, EmergencyStop, if s.cutReason.ManualTest? then ManualTest else Latched))
    else
      var f := TrackFault(p, s, i);
      if f.fault && IntervalElapsed(i.now, f.faultSince, p.sensorFaultPersistence) then
        var r := TriggerCut(p, f, i.now, SensorFaultStop, false);
        (r, Report(p, r, i, EmergencyStop, SensorFaultStop))
      else
        var o := TrackObstacle(p, f, i);
        if o.obstacle && IntervalElapsed(i.now, o.obstacleSince, p.emergencyPersistence) then
          var r := TriggerCut(p, o, i.now, ObstacleStop, false);
          (r, Report(p, r, i, EmergencyStop, ObstacleStop))
        else Judge(p, o, i)
  }

  function Reset(p: Parameters, s: Control, i: Input): (Control, bool) {
    if !CanReset(p, i) then (s, false)
    else (s.(motorCut := false, latched := false, latchedAt := 0, cutReason := Clear, obstacle := false, fault := false), true)
  }

  // ---------------------------------------------------------------------------
  // The controller object
  // ---------------------------------------------------------------------------

  class SafetyController {
    const parameters: Parameters
    var motorCut: bool
    var latched: bool
    var latchedAt: U32
    var cutReason: Reason
    var obstacleActive: bool
    var obstacleSince: U32
    var faultActive: bool
    var faultSince: U32

    constructor (parameters: Parameters)
      ensures this.parameters == parameters && Value() == INITIAL
    {
      this.parameters := parameters;
      motorCut, latched, latchedAt, cutReason := false, false, 0, Clear;
      obstacleActive, obstacleSince, faultActive, faultSince := false, 0, false, 0;
    }

    function Value(): Control
      reads this
    {
      Control(motorCut, latched, latchedAt, cutReason, obstacleActive, obstacleSince, faultActive, faultSince)
    }

    method Cut(now: U32, reason: Reason, forceLatch: bool)
      modifies this
      ensures Value() == TriggerCut(parameters, old(Value()), now, reason, forceLatch)
    {
      if !motorCut {
        latchedAt := now;
      }
      motorCut := true;
      latched := forceLatch || parameters.latchMotorCut;
      cutReason := reason;
    }

    method TriggerManualTest(now: U32)
      modifies this
      ensures Value() == TriggerCut(parameters, old(Value()), now, ManualTest, true)
    {
      Cut(now, ManualTest, true);
    }

    method TryReset(input: Input) returns (ok: bool)
      modifies this
      ensures (Value(), ok) == Reset(parameters, old(Value()), input)
    {
      if !CanReset(parameters, input) {
        return false;
      }
      motorCut, latched, latchedAt, cutReason := false, false, 0, Clear;
      obstacleActive, faultActive := false, false;
      ok := true;
    }

    method EvaluateInput(input: Input) returns (out: Output)
      modifies this
      ensures (Value(), out) == Evaluate(parameters, old(Value()), input)
    {
      hide ThresholdsFor;
      if motorCut && latched {
        return Report(parameters, Value(), input, EmergencyStop, if cutReason.ManualTest? then ManualTest else Latched);
      }
      var thresholds := ThresholdsFor(parameters, input.speed);
      var moving := Moving(parameters, input);
      var coverageFault := CoverageFault(input);
      if coverageFault && moving {
        if !faultActive {
          faultActive, faultSince := true, input.now;
        }
        if IntervalElapsed(input.now, faultSince, parameters.sensorFaultPersistence) {
          Cut(input.now, SensorFaultStop, false);
          return Report(parameters, Value(), input, EmergencyStop, SensorFaultStop);
        }
      } else {
        faultActive := false;
      }
      var insideEmergency := input.hasRange && input.nearest <= thresholds.emergency;
      if insideEmergency && moving {
        if !obstacleActive {
          obstacleActive, obstacleSince := true, input.now;
        }
        if IntervalElapsed(input.now, obstacleSince, parameters.emergencyPersistence) {
          Cut(input.now, ObstacleStop, false);
          return Report(parameters, Value(), input, EmergencyStop, ObstacleStop);
        }
        return Report(parameters, Value(), input, Critical, EmergencyPersistence);
      }
      obstacleActive := false;
      if insideEmergency {
        return Report(parameters, Value(), input, Critical, StationaryObstacle);
      }
      if input.hasRange && input.nearest <= thresholds.critical {
        return Report(parameters, Value(), input, Critical, CriticalDistance);
      }
      if coverageFault {
        return Report(parameters, Value(), input, SensorFault,
                      if input.direction.Unknown? then DirectionUnknown else RangeCoverageFault);
      }
      if input.nearest <= thresholds.warning {
        return Report(parameters, Value(), input, Warning, WarningDistance);
      }
      if motorCut && !latched {
        motorCut, latchedAt, cutReason := false, 0, Clear;
      }
      out := Report(parameters, Value(), input, Safe, Clear);
    }
  }
}
