/** The safety controller without the motor latch: what it cuts for, and when persistence is still exact.
    An evaluation that cuts for a sensor fault returns before it looks at the obstacle,
    so the obstacle candidate may be left as an earlier evaluation found it. */
module SafetyUnlatched {
  import opened Clock
  import opened SafetyControl
  import opened SafetyPersistence

  /** The controller after these evaluations, from power-up. */
  function Evaluated(p: Parameters, trail: seq<Sample>): Control {
    if trail == [] then INITIAL else Evaluate(p, Evaluated(p, trail[..|trail| - 1]), trail[|trail| - 1].input).0
  }

  /** The evaluations that got as far as the obstacle: those at which loss of sight had not persisted. */
  ghost function Sighted(p: Parameters, trail: seq<Sample>): (r: seq<Sample>)
    ensures |r| <= |trail|
    decreases |trail|
  {
    if trail == [] then []
    else
      var before := Sighted(p, trail[..|trail| - 1]);
      if Persisted(p, Blind, trail) then before else before + [trail[|trail| - 1]]
  }

  /** Evaluations in order of time, each with the clock value of its time. */
  ghost predicate Timed(trail: seq<Sample>) {
    (forall j | 0 <= j < |trail| :: trail[j].input.now == Shown(trail[j].at)) && InOrder(trail)
  }

  /** The hazard came less than one wrap of the clock ago, if it is there. */
  ghost predicate StretchFits(p: Parameters, h: Hazard, trail: seq<Sample>) {
    var start := StretchStart(p, h, trail);
    start < |trail| ==> trail[|trail| - 1].at < trail[start].at + WRAP
  }

  /** Wherever the run is stopped, loss of sight and the obstacle last for less than one wrap of the clock. */
  ghost predicate Timely(p: Parameters, trail: seq<Sample>) {
    && Timed(trail)
    && forall n | 0 < n <= |trail| ::
         StretchFits(p, Blind, trail[..n]) && StretchFits(p, Obstacle, Sighted(p, trail[..n]))
  }

  lemma TimelyPrefix(p: Parameters, trail: seq<Sample>, n: nat)
    requires Timely(p, trail) && n <= |trail|
    ensures Timely(p, trail[..n])
  {
    hide StretchFits, Sighted, Persisted;
    forall m | 0 < m <= n ensures trail[..n][..m] == trail[..m] {
    }
  }

  /** What it means for the evaluation made last. */
  lemma TimelyEnd(p: Parameters, trail: seq<Sample>, e: Sample)
    requires Timely(p, trail + [e])
    ensures Timely(p, trail) && Timed(trail + [e])
    ensures StretchFits(p, Blind, trail + [e]) && StretchFits(p, Obstacle, Sighted(p, trail + [e]))
  {
    hide StretchFits, Sighted, Timed;
    var now := trail + [e];
    assert now[..|now|] == now && now[..|trail|] == trail;
    TimelyPrefix(p, now, |trail|);
  }

  /** The candidate fields hold the current stretch of the hazard. */
  ghost predicate Follows(p: Parameters, h: Hazard, trail: seq<Sample>, active: bool, since: U32) {
    var start := StretchStart(p, h, trail);
    && (active <==> start < |trail|)
    && (active ==> since == Shown(trail[start].at))
  }

  /** A candidate that is tracked keeps following, and matures exactly when the hazard has persisted. */
  lemma FollowingStep(p: Parameters, h: Hazard, trail: seq<Sample>, e: Sample, active: bool, since: U32)
    requires Timed(trail + [e]) && StretchFits(p, h, trail + [e]) && Follows(p, h, trail, active, since)
    ensures var now, seen := trail + [e], Present(p, h, e.input);
            var since' := if active then since else e.input.now;
            && Follows(p, h, now, seen, since')
            && (seen && IntervalElapsed(e.input.now, since', Persistence(p, h)) <==> Persisted(p, h, now))
  {
    hide Present;
    var now := trail + [e];
    StretchGrows(p, h, trail, e);
    assert now[|trail|] == e;
    PersistedExactly(p, h, now);
    if Present(p, h, e.input) {
      var start := StretchStart(p, h, now);
      assert active ==> now[start] == trail[start];
      assert now[start].at <= e.at < now[start].at + WRAP;
      ElapsedIsTrue(e.at, now[start].at);
      StretchEndsPresent(p, h, trail, e, StretchStart(p, h, trail));
    }
  }

  // ---------------------------------------------------------------------------
  // One evaluation
  // ---------------------------------------------------------------------------

  /** What an evaluation without the latch does to the candidates, and when it stops for which hazard. */
  lemma UnlatchedEvaluation(p: Parameters, s: Control, i: Input)
    requires !p.latchMotorCut && !s.latched
    ensures var r := Evaluate(p, s, i);
            var blind, near := Present(p, Blind, i), Present(p, Obstacle, i);
            var faultSince := if s.fault then s.faultSince else i.now;
            var obstacleSince := if s.obstacle then s.obstacleSince else i.now;
            var stops := blind && IntervalElapsed(i.now, faultSince, p.sensorFaultPersistence);
            && !r.0.latched
            && r.0.fault == blind && (blind ==> r.0.faultSince == faultSince)
            && (r.1.reason == SensorFaultStop <==> stops)
            && (stops ==> r.0.obstacle == s.obstacle && r.0.obstacleSince == s.obstacleSince)
            && (!stops ==>
                  && r.0.obstacle == near && (near ==> r.0.obstacleSince == obstacleSince)
                  && (r.1.reason == ObstacleStop <==>
                      near && IntervalElapsed(i.now, obstacleSince, p.emergencyPersistence)))
  {
    hide ThresholdsFor;
  }

  // ---------------------------------------------------------------------------
  // Whole runs
  // ---------------------------------------------------------------------------

  /** Whether the last of the evaluations saw the obstacle while moving. */
  predicate SawObstacle(p: Parameters, trail: seq<Sample>) {
    trail != [] && Present(p, Obstacle, trail[|trail| - 1].input)
  }

  /** No evaluation at which the loss of sight had persisted sees the obstacle come or go. */
  ghost predicate NoBlindChange(p: Parameters, trail: seq<Sample>) {
    forall n | 0 < n <= |trail| && Persisted(p, Blind, trail[..n]) ::
      SawObstacle(p, trail[..n]) <==> SawObstacle(p, trail[..n - 1])
  }

  /** After every evaluation the obstacle candidate is active exactly when that evaluation saw the obstacle. */
  ghost predicate CandidateUpToDate(p: Parameters, trail: seq<Sample>) {
    forall n | 0 <= n <= |trail| :: Evaluated(p, trail[..n]).obstacle <==> SawObstacle(p, trail[..n])
  }

  /** The sensor-fault candidate is always right, with or without changes while blind. */
  ghost predicate BlindRight(p: Parameters, trail: seq<Sample>) {
    var s := Evaluated(p, trail);
    !s.latched && Follows(p, Blind, trail, s.fault, s.faultSince)
  }

  lemma StretchOfNone(p: Parameters, h: Hazard)
    ensures StretchStart(p, h, []) == 0
  {
  }

  lemma {:induction false} FaultCandidateFollows(p: Parameters, trail: seq<Sample>)
    requires !p.latchMotorCut && Timely(p, trail)
    ensures BlindRight(p, trail)
    decreases |trail|
  {
    hide Present, Evaluate, Timely, Timed, StretchFits, Persisted, Sighted, StretchStart;
    if trail == [] {
      StretchOfNone(p, Blind);
    } else {
      var init, e := trail[..|trail| - 1], trail[|trail| - 1];
      assert trail == init + [e];
      TimelyEnd(p, init, e);
      FaultCandidateFollows(p, init);
      UnlatchedEvaluation(p, Evaluated(p, init), e.input);
      FollowingStep(p, Blind, init, e, Evaluated(p, init).fault, Evaluated(p, init).faultSince);
    }
  }

  /** Without the latch the sensor-fault cut is exact at every evaluation. */
  lemma FaultStopExactly(p: Parameters, trail: seq<Sample>, e: Sample)
    requires !p.latchMotorCut && Timely(p, trail + [e])
    ensures Evaluate(p, Evaluated(p, trail), e.input).1.reason == SensorFaultStop <==> Persisted(p, Blind, trail + [e])
  {
    hide Present, Evaluate, Persisted, Timely, Timed, StretchFits, Sighted, StretchStart;
    TimelyEnd(p, trail, e);
    FaultCandidateFollows(p, trail);
    UnlatchedEvaluation(p, Evaluated(p, trail), e.input);
    FollowingStep(p, Blind, trail, e, Evaluated(p, trail).fault, Evaluated(p, trail).faultSince);
  }

  /** One more evaluation: the obstacle candidate is as the evaluation saw it, or as it was. */
  lemma ObstacleCandidateStep(p: Parameters, trail: seq<Sample>, e: Sample)
    requires !p.latchMotorCut && Timely(p, trail + [e])
    ensures Evaluated(p, trail + [e]).obstacle ==
            if Persisted(p, Blind, trail + [e]) then Evaluated(p, trail).obstacle else Present(p, Obstacle, e.input)
  {
    hide Present, Evaluate, Persisted, Timely, Timed, StretchFits, Sighted, StretchStart;
    assert (trail + [e])[..|trail|] == trail;
    TimelyEnd(p, trail, e);
    FaultCandidateFollows(p, trail);
    UnlatchedEvaluation(p, Evaluated(p, trail), e.input);
    FaultStopExactly(p, trail, e);
  }

  /** Without the latch the obstacle candidate is up to date after every evaluation if and only if the
      obstacle never comes or goes at an evaluation at which the loss of sight had persisted. */
  lemma CandidateUpToDateExactly(p: Parameters, trail: seq<Sample>)
    requires !p.latchMotorCut && Timely(p, trail)
    ensures CandidateUpToDate(p, trail) <==> NoBlindChange(p, trail)
  {
    hide Present, Evaluate, Persisted, Timely;
    forall n | 0 < n <= |trail|
      ensures Evaluated(p, trail[..n]).obstacle ==
              if Persisted(p, Blind, trail[..n]) then Evaluated(p, trail[..n - 1]).obstacle else SawObstacle(p, trail[..n])
    {
      TimelyPrefix(p, trail, n);
      assert trail[..n] == trail[..n - 1] + [trail[n - 1]];
      ObstacleCandidateStep(p, trail[..n - 1], trail[n - 1]);
    }
    if NoBlindChange(p, trail) {
      for n := 0 to |trail| + 1
        invariant forall m | 0 <= m < n :: Evaluated(p, trail[..m]).obstacle <==> SawObstacle(p, trail[..m])
      {
        if n == 0 {
          assert trail[..n] == [];
        } else {
          assert Evaluated(p, trail[..n - 1]).obstacle <==> SawObstacle(p, trail[..n - 1]);
          assert Persisted(p, Blind, trail[..n]) ==> (SawObstacle(p, trail[..n]) <==> SawObstacle(p, trail[..n - 1]));
        }
      }
    }
    if CandidateUpToDate(p, trail) {
      forall n | 0 < n <= |trail| && Persisted(p, Blind, trail[..n])
        ensures SawObstacle(p, trail[..n]) <==> SawObstacle(p, trail[..n - 1])
      {
        assert Evaluated(p, trail[..n]).obstacle == Evaluated(p, trail[..n - 1]).obstacle;
      }
    }
  }

  // ---------------------------------------------------------------------------
  // The obstacle cut
  // ---------------------------------------------------------------------------

  lemma {:induction false} SightedIsTimed(p: Parameters, trail: seq<Sample>)
    requires Timed(trail)
    ensures Timed(Sighted(p, trail))
    ensures forall a | a in Sighted(p, trail) :: a in trail
    decreases |trail|
  {
    hide Persisted;
    if trail != [] {
      var init, last := trail[..|trail| - 1], trail[|trail| - 1];
      SightedIsTimed(p, init);
      var before := Sighted(p, init);
      forall j | 0 <= j < |before| ensures before[j].at <= last.at {
        assert before[j] in init;
        var k :| 0 <= k < |init| && init[k] == before[j];
        assert trail[k] == init[k];
      }
    }
  }

  lemma SightedStep(p: Parameters, trail: seq<Sample>, e: Sample)
    ensures Sighted(p, trail + [e]) == if Persisted(p, Blind, trail + [e]) then Sighted(p, trail) else Sighted(p, trail) + [e]
  {
    hide Persisted;
    assert (trail + [e])[..|trail|] == trail;
  }

  /** The obstacle candidate holds the current stretch of the sighted evaluations. */
  lemma {:induction false} SightedCandidateFollows(p: Parameters, trail: seq<Sample>)
    requires !p.latchMotorCut && Timely(p, trail)
    ensures Follows(p, Obstacle, Sighted(p, trail), Evaluated(p, trail).obstacle, Evaluated(p, trail).obstacleSince)
    decreases |trail|
  {
    hide Present, Evaluate, Persisted, Sighted, Timely, Timed, StretchFits, StretchStart;
    if trail == [] {
      NothingSighted(p);
    } else {
      var init, e := trail[..|trail| - 1], trail[|trail| - 1];
      assert trail == init + [e];
      TimelyEnd(p, init, e);
      SightedCandidateFollows(p, init);
      FaultCandidateFollows(p, init);
      UnlatchedEvaluation(p, Evaluated(p, init), e.input);
      FaultStopExactly(p, init, e);
      SightedStep(p, init, e);
      if !Persisted(p, Blind, trail) {
        SightedIsTimed(p, trail);
        FollowingStep(p, Obstacle, Sighted(p, init), e, Evaluated(p, init).obstacle, Evaluated(p, init).obstacleSince);
      }
    }
  }

  lemma NothingSighted(p: Parameters)
    ensures Sighted(p, []) == [] && StretchStart(p, Obstacle, []) == 0
  {
  }

  /** Without the latch an evaluation cuts for the obstacle if and only if loss of sight had not persisted and
      the obstacle had, counting the sighted evaluations only. */
  lemma UnlatchedObstacleStopExactly(p: Parameters, trail: seq<Sample>, e: Sample)
    requires !p.latchMotorCut && Timely(p, trail + [e])
    ensures Evaluate(p, Evaluated(p, trail), e.input).1.reason == ObstacleStop
       <==> !Persisted(p, Blind, trail + [e]) && Persisted(p, Obstacle, Sighted(p, trail + [e]))
  {
    hide Present, Evaluate, Persisted, Sighted, Timely, Timed, StretchFits, StretchStart;
    TimelyEnd(p, trail, e);
    FaultCandidateFollows(p, trail);
    SightedCandidateFollows(p, trail);
    UnlatchedEvaluation(p, Evaluated(p, trail), e.input);
    FaultStopExactly(p, trail, e);
    SightedStep(p, trail, e);
    if !Persisted(p, Blind, trail + [e]) {
      SightedIsTimed(p, trail + [e]);
      FollowingStep(p, Obstacle, Sighted(p, trail), e, Evaluated(p, trail).obstacle, Evaluated(p, trail).obstacleSince);
    }
  }

  /** The verdict on the obstacle at evaluation n is what persistence asks for: a stop for it exactly when it
      had persisted and loss of sight had not, which comes first. */
  ghost predicate JudgedRightly(p: Parameters, trail: seq<Sample>, n: nat)
    requires n < |trail|
  {
    Evaluate(p, Evaluated(p, trail[..n]), trail[n].input).1.reason == ObstacleStop
    <==> !Persisted(p, Blind, trail[..n + 1]) && Persisted(p, Obstacle, trail[..n + 1])
  }

  /** Leaving out the evaluations that loss of sight cut short makes no difference to the obstacle. */
  ghost predicate SightMakesNoDifference(p: Parameters, trail: seq<Sample>) {
    Persisted(p, Obstacle, Sighted(p, trail)) <==> Persisted(p, Obstacle, trail)
  }

  /** Without the latch every obstacle verdict of a run is right if and only if, at every evaluation that loss
      of sight does not cut short, leaving out those that it did makes no difference. */
  lemma UnlatchedRunRightExactly(p: Parameters, trail: seq<Sample>)
    requires !p.latchMotorCut && Timely(p, trail)
    ensures (forall n | 0 <= n < |trail| :: JudgedRightly(p, trail, n))
       <==> forall n | 0 < n <= |trail| :: Persisted(p, Blind, trail[..n]) || SightMakesNoDifference(p, trail[..n])
  {
    hide Evaluate, Persisted, Sighted, Timely;
    forall n | 0 <= n < |trail|
      ensures JudgedRightly(p, trail, n) <==> Persisted(p, Blind, trail[..n + 1]) || SightMakesNoDifference(p, trail[..n + 1])
    {
      TimelyPrefix(p, trail, n + 1);
      assert trail[..n + 1] == trail[..n] + [trail[n]];
      UnlatchedObstacleStopExactly(p, trail[..n], trail[n]);
    }
    if forall n | 0 <= n < |trail| :: JudgedRightly(p, trail, n) {
      forall n | 0 < n <= |trail| ensures Persisted(p, Blind, trail[..n]) || SightMakesNoDifference(p, trail[..n]) {
        assert JudgedRightly(p, trail, n - 1);
      }
    }
  }

  lemma NoBlindChangeBefore(p: Parameters, trail: seq<Sample>, n: nat)
    requires NoBlindChange(p, trail) && n <= |trail|
    ensures NoBlindChange(p, trail[..n])
  {
    hide Persisted, SawObstacle;
    forall m | 0 < m <= n && Persisted(p, Blind, trail[..n][..m])
      ensures SawObstacle(p, trail[..n][..m]) <==> SawObstacle(p, trail[..n][..m - 1])
    {
      assert trail[..n][..m] == trail[..m] && trail[..n][..m - 1] == trail[..m - 1];
    }
    assert |trail[..n]| == n;
  }

  lemma NoBlindChangeYet(p: Parameters, trail: seq<Sample>, e: Sample)
    requires NoBlindChange(p, trail) && !Persisted(p, Blind, trail + [e])
    ensures NoBlindChange(p, trail + [e])
  {
    hide Persisted, SawObstacle;
    var now := trail + [e];
    assert now[..|now|] == now;
    forall n | 0 < n <= |now| && Persisted(p, Blind, now[..n])
      ensures SawObstacle(p, now[..n]) <==> SawObstacle(p, now[..n - 1])
    {
      assert n <= |trail| && now[..n] == trail[..n] && now[..n - 1] == trail[..n - 1];
    }
  }

  /** When the obstacle never comes or goes while blind, its stretch begins at a sighted evaluation. */
  lemma {:induction false} SightedStretch(p: Parameters, trail: seq<Sample>)
    requires NoBlindChange(p, trail)
    ensures var sighted := Sighted(p, trail);
            var a, b := StretchStart(p, Obstacle, trail), StretchStart(p, Obstacle, sighted);
            && (SawObstacle(p, trail) <==> a < |trail|) && (SawObstacle(p, trail) <==> b < |sighted|)
            && (SawObstacle(p, trail) ==> sighted[b] == trail[a])
    decreases |trail|
  {
    hide Present, Persisted, Sighted, StretchStart;
    if trail == [] {
      NothingSighted(p);
    } else {
      var init, e := trail[..|trail| - 1], trail[|trail| - 1];
      assert trail == init + [e] && trail[..|trail|] == trail;
      NoBlindChangeBefore(p, trail, |init|);
      SightedStretch(p, init);
      SightedStep(p, init, e);
      StretchGrows(p, Obstacle, init, e);
      StretchGrows(p, Obstacle, Sighted(p, init), e);
    }
  }

  /** In particular when the obstacle never comes or goes while blind. */
  lemma NoBlindChangeIsEnough(p: Parameters, trail: seq<Sample>, e: Sample)
    requires !p.latchMotorCut && Timely(p, trail + [e]) && NoBlindChange(p, trail)
    requires !Persisted(p, Blind, trail + [e])
    ensures Evaluate(p, Evaluated(p, trail), e.input).1.reason == ObstacleStop <==> Persisted(p, Obstacle, trail + [e])
  {
    hide Present, Evaluate, Persisted, NoBlindChange, Timely, StretchFits, Sighted, StretchStart;
    TimelyEnd(p, trail, e);
    UnlatchedObstacleStopExactly(p, trail, e);
    NoBlindChangeYet(p, trail, e);
    SightedStretch(p, trail + [e]);
    SightedStep(p, trail, e);
    SightedIsTimed(p, trail + [e]);
    PersistedAlike(p, Obstacle, trail, Sighted(p, trail), e);
  }

  /** Two histories with the same last evaluation and the same beginning of the hazard. */
  lemma PersistedAlike(p: Parameters, h: Hazard, trail: seq<Sample>, other: seq<Sample>, e: Sample)
    requires InOrder(trail + [e]) && InOrder(other + [e])
    requires var a, b := StretchStart(p, h, trail + [e]), StretchStart(p, h, other + [e]);
             (a < |trail + [e]| <==> b < |other + [e]|) && (a < |trail + [e]| ==> (trail + [e])[a] == (other + [e])[b])
    ensures Persisted(p, h, trail + [e]) <==> Persisted(p, h, other + [e])
  {
    hide Present, Persisted;
    PersistedExactly(p, h, trail + [e]);
    PersistedExactly(p, h, other + [e]);
  }
}
