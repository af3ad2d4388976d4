/** The safety controller reads time only as differences: moving every clock value
    by the same amount, around the wrap or not, changes no verdict. */
module ClockShift {
  import opened Clock
  import opened SafetyControl

  /** One use of the controller, with the clock value it is given. */
  datatype Use = Evaluating(input: Input) | Resetting(input: Input) | Testing(now: U32)

  /** What the caller learns, without the absolute time of the latch. */
  datatype Verdict =
    | Verdict(state: SafetyState, reason: Reason, thresholds: Thresholds, motorCut: bool, latched: bool, nearest: real)
    | ResetAnswer(ok: bool)
    | TestDone

  function Step(p: Parameters, s: Control, u: Use): (Control, Verdict) {
    match u
    case Evaluating(i) =>
      var r := Evaluate(p, s, i);
      (r.0, Told(r.1))
    case Resetting(i) => var r := Reset(p, s, i); (r.0, ResetAnswer(r.1))
    case Testing(now) => (TriggerCut(p, s, now, ManualTest, true), TestDone)
  }

  function Run(p: Parameters, uses: seq<Use>): (r: (Control, seq<Verdict>))
    ensures |r.1| == |uses|
  {
    if uses == [] then (INITIAL, [])
    else
      var before := Run(p, uses[..|uses| - 1]);
      var step := Step(p, before.0, uses[|uses| - 1]);
      (step.0, before.1 + [step.1])
  }

  function Shifted(u: Use, shift: int): Use {
    match u
    case Evaluating(i) => Evaluating(i.(now := Shown(i.now + shift)))
    case Resetting(i) => Resetting(i.(now := Shown(i.now + shift)))
    case Testing(now) => Testing(Shown(now + shift))
  }

  function AllShifted(uses: seq<Use>, shift: int): seq<Use> {
    seq(|uses|, k requires 0 <= k < |uses| => Shifted(uses[k], shift))
  }

  /** The same state but for the times it holds, which are all shifted. */
  ghost predicate Alike(s: Control, t: Control, shift: int) {
    && t.motorCut == s.motorCut && t.latched == s.latched && t.cutReason == s.cutReason
    && t.obstacle == s.obstacle && t.fault == s.fault
    && t.latchedAt == (if s.motorCut then Shown(s.latchedAt + shift) else s.latchedAt)
    && (s.obstacle ==> t.obstacleSince == Shown(s.obstacleSince + shift))
    && (s.fault ==> t.faultSince == Shown(s.faultSince + shift))
  }

  /** The same input but for its time. */
  ghost predicate Later(i: Input, j: Input, shift: int) { j == i.(now := Shown(i.now + shift)) }

  lemma TrackingIsAlike(p: Parameters, s: Control, t: Control, i: Input, j: Input, shift: int)
    requires Alike(s, t, shift) && Later(i, j, shift)
    ensures Alike(TrackFault(p, s, i), TrackFault(p, t, j), shift)
    ensures Alike(TrackObstacle(p, s, i), TrackObstacle(p, t, j), shift)
  {
    hide ThresholdsFor, Shown;
  }

  lemma CuttingIsAlike(p: Parameters, s: Control, t: Control, i: Input, j: Input, reason: Reason, shift: int)
    requires Alike(s, t, shift) && Later(i, j, shift)
    ensures Alike(TriggerCut(p, s, i.now, reason, false), TriggerCut(p, t, j.now, reason, false), shift)
  {
    hide Shown;
  }

  lemma JudgingIsAlike(p: Parameters, s: Control, t: Control, i: Input, j: Input, shift: int)
    requires Alike(s, t, shift) && Later(i, j, shift)
    ensures Alike(Judge(p, s, i).0, Judge(p, t, j).0, shift)
    ensures Told(Judge(p, s, i).1) == Told(Judge(p, t, j).1)
  {
    hide ThresholdsFor, Shown;
  }

  function Told(o: Output): Verdict {
    Verdict(o.state, o.reason, o.thresholds, o.motorCut, o.latched, o.nearest)
  }

  /** A candidate matures at the same evaluation. */
  lemma MaturingIsAlike(i: Input, j: Input, a: U32, b: U32, interval: U32, shift: int)
    requires Later(i, j, shift) && b == Shown(a + shift)
    ensures IntervalElapsed(j.now, b, interval) == IntervalElapsed(i.now, a, interval)
  {
    ElapsedIgnoresShift(i.now, a, shift);
  }

  lemma EvaluationIgnoresShift(p: Parameters, s: Control, t: Control, i: Input, j: Input, shift: int)
    requires Alike(s, t, shift) && Later(i, j, shift)
    ensures Alike(Evaluate(p, s, i).0, Evaluate(p, t, j).0, shift)
    ensures Told(Evaluate(p, s, i).1) == Told(Evaluate(p, t, j).1)
  {
    hide ThresholdsFor, Shown, IntervalElapsed, TrackFault, TrackObstacle, TriggerCut, Judge;
    var f, g := TrackFault(p, s, i), TrackFault(p, t, j);
    TrackingIsAlike(p, s, t, i, j, shift);
    if f.fault {
      MaturingIsAlike(i, j, f.faultSince, g.faultSince, p.sensorFaultPersistence, shift);
    }
    CuttingIsAlike(p, f, g, i, j, SensorFaultStop, shift);
    var o, q := TrackObstacle(p, f, i), TrackObstacle(p, g, j);
    TrackingIsAlike(p, f, g, i, j, shift);
    if o.obstacle {
      MaturingIsAlike(i, j, o.obstacleSince, q.obstacleSince, p.emergencyPersistence, shift);
    }
    CuttingIsAlike(p, o, q, i, j, ObstacleStop, shift);
    JudgingIsAlike(p, o, q, i, j, shift);
  }

  lemma StepIgnoresShift(p: Parameters, s: Control, t: Control, u: Use, shift: int)
    requires Alike(s, t, shift)
    ensures var a, b := Step(p, s, u), Step(p, t, Shifted(u, shift));
            Alike(a.0, b.0, shift) && a.1 == b.1
  {
    hide ThresholdsFor, Shown, Evaluate;
    if u.Evaluating? {
      EvaluationIgnoresShift(p, s, t, u.input, Shifted(u, shift).input, shift);
    }
  }

  /** All verdicts are unchanged when every clock value is shifted modulo 2^32. */
  lemma {:induction false} VerdictsIgnoreShift(p: Parameters, uses: seq<Use>, shift: int)
    ensures Run(p, AllShifted(uses, shift)).1 == Run(p, uses).1
    ensures Alike(Run(p, uses).0, Run(p, AllShifted(uses, shift)).0, shift)
  {
    hide Step, Shifted, Alike;
    if uses == [] {
      InitialIsAlike(shift);
    } else {
      var init, last := uses[..|uses| - 1], uses[|uses| - 1];
      VerdictsIgnoreShift(p, init, shift);
      var all := AllShifted(uses, shift);
      assert all[..|all| - 1] == AllShifted(init, shift);
      StepIgnoresShift(p, Run(p, init).0, Run(p, AllShifted(init, shift)).0, last, shift);
    }
  }

  lemma InitialIsAlike(shift: int)
    ensures Alike(INITIAL, INITIAL, shift)
  {
  }
}
