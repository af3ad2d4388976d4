/** The laptop's emergency controller, and its agreement with the one on the truck. */
module EmergencyControl {
  import opened Options
  import S = SafetyControl

  datatype Sensor = FrontScanner | FrontFixed | Other

  datatype Reading = Reading(
    sensor: Sensor, isValid: bool, quality: real, timestamp: int, range: real, maxRange: real)

  datatype Parameters = Parameters(
    warningTime: real, criticalTime: real, emergencyTime: real,
    stationaryWarning: real, stationaryCritical: real, stationaryEmergency: real,
    reactionTime: real, brakingDeceleration: real, confidenceFloor: real,
    staleSensor: int, emergencyPersistence: int, safetyMargin: real)

  datatype Level = Safe | Warning | Critical | EmergencyStop

  /** What the controller reports: level, nearest obstacle, cut and latch time. */
  datatype Verdict = Verdict(level: Level, nearest: Option<real>, motorCut: bool, latchedAt: Option<int>)

  datatype Control = Control(candidateSince: Option<int>, latchedAt: Option<int>)

  const INITIAL := Control(None, None)

  function Distances(p: Parameters, speed: real): S.Thresholds
    requires p.brakingDeceleration > 0.0
  {
    var braking := S.BrakingDistance(speed, p.brakingDeceleration);
    S.Thresholds(
      S.Max(S.Max(p.stationaryWarning, S.Travelled(speed, p.warningTime)),
            S.Travelled(speed, p.reactionTime) + braking + p.safetyMargin),
      S.Max(S.Max(p.stationaryCritical, S.Travelled(speed, p.criticalTime)), braking + p.safetyMargin),
      S.Max(p.stationaryEmergency, S.Travelled(speed, p.emergencyTime)))
  }

  predicate Counts(p: Parameters, now: int, r: Reading) {
    && !r.sensor.Other? && r.isValid && r.quality >= p.confidenceFloor
    && now - r.timestamp <= p.staleSensor
  }

  function Valid(p: Parameters, now: int, readings: seq<Reading>): seq<Reading> {
    if readings == [] then []
    else
      var rest := Valid(p, now, readings[..|readings| - 1]);
      if Counts(p, now, readings[|readings| - 1]) then rest + [readings[|readings| - 1]] else rest
  }

  predicate Detects(r: Reading) { r.range < r.maxRange - 0.01 }

  predicate CoverageComplete(valid: seq<Reading>) {
    && (exists i | 0 <= i < |valid| :: valid[i].sensor.FrontScanner?)
    && (exists i | 0 <= i < |valid| :: valid[i].sensor.FrontFixed?)
  }

  /** The least range among the readings that detect something. */
  function LeastDetected(valid: seq<Reading>): (r: Option<real>)
    ensures r.None? <==> forall i | 0 <= i < |valid| :: !Detects(valid[i])
    ensures r.Some? ==> exists i | 0 <= i < |valid| :: Detects(valid[i]) && valid[i].range == r.value
    ensures r.Some? ==> forall i | 0 <= i < |valid| :: Detects(valid[i]) ==> r.value <= valid[i].range
  {
    if valid == [] then None
    else
      var last, rest := valid[|valid| - 1], LeastDetected(valid[..|valid| - 1]);
      if !Detects(last) then rest
      else if rest.None? || last.range < rest.value then Some(last.range)
      else rest
  }

  function GreatestReach(valid: seq<Reading>): (r: real)
    requires valid != []
    ensures exists i | 0 <= i < |valid| :: valid[i].maxRange == r
    ensures forall i | 0 <= i < |valid| :: valid[i].maxRange <= r
  {
    var last := valid[|valid| - 1];
    if |valid| == 1 then last.maxRange
    else
      var rest := GreatestReach(valid[..|valid| - 1]);
      if last.maxRange > rest then last.maxRange else rest
  }

  /** How near the nearest obstacle is, or how far all sensors see when they see none. */
  function Nearest(valid: seq<Reading>): Option<real> {
    var least := LeastDetected(valid);
    if least.Some? then least else if valid == [] then None else Some(GreatestReach(valid))
  }

  function Evaluate(p: Parameters, s: Control, now: int, speed: real, readings: seq<Reading>): (Control, Verdict)
    requires p.brakingDeceleration > 0.0
  {
    var d, valid := Distances(p, speed), Valid(p, now, readings);
    var nearest := Nearest(valid);
    if s.latchedAt.Some? then (s, Verdict(EmergencyStop, nearest, true, s.latchedAt))
    else if nearest.None? then (s.(candidateSince := None), Verdict(Warning, None, false, None))
    else if nearest.value <= d.emergency then
      var since := if s.candidateSince.Some? then s.candidateSince.value else now;
      if now - since >= p.emergencyPersistence then
        (Control(Some(since), Some(since)), Verdict(EmergencyStop, nearest, true, Some(since)))
      else (s.(candidateSince := Some(since)), Verdict(Critical, nearest, false, None))
    else
      (s.(candidateSince := None),
       Verdict(if nearest.value <= d.critical then Critical
               else if nearest.value <= d.warning then Warning
               else if !CoverageComplete(valid) then Warning
               else Safe,
               nearest, false, None))
  }

  class EmergencyController {
    const parameters: Parameters
    var candidateSince: Option<int>
    var latchedAt: Option<int>

    constructor (parameters: Parameters)
      ensures this.parameters == parameters && Value() == INITIAL
    {
      this.parameters := parameters;
      candidateSince, latchedAt := None, None;
    }

    function Value(): Control
      reads this
    {
      Control(candidateSince, latchedAt)
    }

    method Reset()
      modifies this
      ensures Value() == INITIAL
    {
      candidateSince, latchedAt := None, None;
    }

    method EvaluateReadings(now: int, speed: real, readings: seq<Reading>) returns (verdict: Verdict)
      requires parameters.brakingDeceleration > 0.0
      modifies this
      ensures (Value(), verdict) == Evaluate(parameters, old(Value()), now, speed, readings)
    {
      hide Distances, Valid, Nearest;
      var distances := Distances(parameters, speed);
      var valid := Valid(parameters, now, readings);
      var nearest := Nearest(valid);
      if latchedAt.Some? {
        return Verdict(EmergencyStop, nearest, true, latchedAt);
      }
      if nearest.None? {
        candidateSince := None;
        return Verdict(Warning, None, false, None);
      }
      if nearest.value <= distances.emergency {
        if candidateSince.None? {
          candidateSince := Some(now);
        }
        var persisted := now - candidateSince.value;
        if persisted >= parameters.emergencyPersistence {
          latchedAt := candidateSince;
          return Verdict(EmergencyStop, nearest, true, latchedAt);
        }
        return Verdict(Critical, nearest, false, None);
      }
      candidateSince := None;
      var level := Safe;
      if nearest.value <= distances.critical {
        level := Critical;
      } else if nearest.value <= distances.warning || !CoverageComplete(valid) {
        level := Warning;
      }
      verdict := Verdict(level, nearest, false, None);
    }
  }
}
