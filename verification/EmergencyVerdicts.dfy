/** What the laptop's controller reports, for every state and all readings: which readings count, which range is the
    nearest, and each level exactly when. */
module EmergencyVerdicts {
  import opened Options
  import opened EmergencyControl

  /** A reading counts when it is a valid one of a front sensor, good enough and not too old. */
  predicate Usable(p: Parameters, now: int, r: Reading) {
    && (r.sensor.FrontScanner? || r.sensor.FrontFixed?) && r.isValid
    && p.confidenceFloor <= r.quality && now <= r.timestamp + p.staleSensor
  }

  /** It sees something closer than its reach, by more than a centimetre. */
  predicate SeesSomething(r: Reading) { r.range + 0.01 < r.maxRange }

  ghost predicate SomeUsable(p: Parameters, now: int, readings: seq<Reading>) {
    exists r :: r in readings && Usable(p, now, r)
  }

  /** One of the two front sensors has a usable reading. */
  ghost predicate Covers(p: Parameters, now: int, readings: seq<Reading>, sensor: Sensor) {
    exists r :: r in readings && Usable(p, now, r) && r.sensor == sensor
  }

  /** The nearest thing that a usable reading sees; when none sees anything, as far as the furthest reaches. */
  ghost predicate IsNearest(p: Parameters, now: int, readings: seq<Reading>, range: real) {
    if exists r :: r in readings && Usable(p, now, r) && SeesSomething(r) then
      && (exists r :: r in readings && Usable(p, now, r) && SeesSomething(r) && r.range == range)
      && forall r | r in readings && Usable(p, now, r) && SeesSomething(r) :: range <= r.range
    else
      && (exists r :: r in readings && Usable(p, now, r) && r.maxRange == range)
      && forall r | r in readings && Usable(p, now, r) :: r.maxRange <= range
  }

  lemma {:induction false} ValidExactly(p: Parameters, now: int, readings: seq<Reading>, r: Reading)
    ensures r in Valid(p, now, readings) <==> r in readings && Usable(p, now, r)
  {
    if readings != [] {
      var init, last := readings[..|readings| - 1], readings[|readings| - 1];
      assert readings == init + [last];
      ValidExactly(p, now, init, r);
      var rest := Valid(p, now, init);
      assert r in rest + [last] <==> r in rest || r == last;
      assert r in readings <==> r in init || r == last;
    }
  }

  lemma AllValid(p: Parameters, now: int, readings: seq<Reading>)
    ensures forall r :: r in Valid(p, now, readings) <==> r in readings && Usable(p, now, r)
  {
    hide Valid, Usable;
    forall r ensures r in Valid(p, now, readings) <==> r in readings && Usable(p, now, r) {
      ValidExactly(p, now, readings, r);
    }
  }

  lemma NearestExactly(p: Parameters, now: int, readings: seq<Reading>)
    ensures var nearest := Nearest(Valid(p, now, readings));
            && (nearest.Some? <==> SomeUsable(p, now, readings))
            && (nearest.Some? ==> IsNearest(p, now, readings, nearest.value))
  {
    hide Valid, Usable;
    AllValid(p, now, readings);
    var valid := Valid(p, now, readings);
    assert forall r :: r in valid <==> exists i :: 0 <= i < |valid| && valid[i] == r;
    var least := LeastDetected(valid);
    assert forall r :: Detects(r) <==> SeesSomething(r);
    if least.Some? {
      var i :| 0 <= i < |valid| && Detects(valid[i]) && valid[i].range == least.value;
      assert valid[i] in readings && Usable(p, now, valid[i]) && SeesSomething(valid[i]);
    } else if valid != [] {
      assert valid[0] in readings && Usable(p, now, valid[0]);
      var i :| 0 <= i < |valid| && valid[i].maxRange == GreatestReach(valid);
      assert valid[i] in readings && Usable(p, now, valid[i]);
    }
  }

  lemma CoverageExactly(p: Parameters, now: int, readings: seq<Reading>)
    ensures CoverageComplete(Valid(p, now, readings)) <==>
            Covers(p, now, readings, FrontScanner) && Covers(p, now, readings, FrontFixed)
  {
    hide Valid, Usable;
    AllValid(p, now, readings);
    var valid := Valid(p, now, readings);
    assert forall i | 0 <= i < |valid| :: valid[i] in valid;
    if Covers(p, now, readings, FrontScanner) && Covers(p, now, readings, FrontFixed) {
      var a :| a in readings && Usable(p, now, a) && a.sensor == FrontScanner;
      var b :| b in readings && Usable(p, now, b) && b.sensor == FrontFixed;
      assert a in valid && b in valid;
    }
  }

  /** Something has been within the emergency distance for the persistence, at this evaluation too. */
  predicate HeldLongEnough(p: Parameters, s: Control, now: int, nearest: real, emergency: real) {
    nearest <= emergency && now - (if s.candidateSince.Some? then s.candidateSince.value else now) >= p.emergencyPersistence
  }

  /** Each level if and only if, and what is left in the fields. */
  lemma LevelExactly(p: Parameters, s: Control, now: int, speed: real, readings: seq<Reading>)
    requires p.brakingDeceleration > 0.0
    ensures var (r, v) := Evaluate(p, s, now, speed, readings);
            var d := Distances(p, speed);
            && (v.nearest.Some? <==> SomeUsable(p, now, readings))
            && (v.nearest.Some? ==> IsNearest(p, now, readings, v.nearest.value))
            && (v.level.EmergencyStop? <==>
                  s.latchedAt.Some? || (v.nearest.Some? && HeldLongEnough(p, s, now, v.nearest.value, d.emergency)))
            && (v.level.Critical? <==>
                  && !v.level.EmergencyStop? && v.nearest.Some?
                  && (v.nearest.value <= d.emergency || v.nearest.value <= d.critical))
            && (v.level.Safe? <==>
                  && !v.level.EmergencyStop? && v.nearest.Some? && v.nearest.value > d.emergency
                  && v.nearest.value > d.critical && v.nearest.value > d.warning
                  && Covers(p, now, readings, FrontScanner) && Covers(p, now, readings, FrontFixed))
            && (v.motorCut <==> v.level.EmergencyStop?) && v.latchedAt == r.latchedAt
            && (s.latchedAt.Some? ==> r == s)
            && (s.latchedAt.None? ==>
                  && (r.candidateSince.Some? <==> v.nearest.Some? && v.nearest.value <= d.emergency)
                  && (r.candidateSince.Some? ==>
                        r.candidateSince.value == if s.candidateSince.Some? then s.candidateSince.value else now)
                  && r.latchedAt == if v.level.EmergencyStop? then r.candidateSince else None)
  {
    hide Distances, Valid, Nearest, CoverageComplete, IsNearest, SomeUsable, Covers;
    NearestExactly(p, now, readings);
    CoverageExactly(p, now, readings);
  }
}
