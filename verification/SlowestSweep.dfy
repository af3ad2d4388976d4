/** The slowest healthy sweep: the bound on how long evidence must stand is attained, so the
    configured times suffice exactly when they add up to no more than evidence may stand. */
module SlowestSweep {
  import opened Clock
  import opened ScanSweep
  import opened SensorNode
  import opened SensorTiming

  lemma OneMore(s: Settings, h: Pace, start: int, moments: seq<Moment>, m: Moment)
    requires HealthyRun(s, h, start, moments) && Healthy(s, h, Watched(s, start, moments), m)
    ensures HealthyRun(s, h, start, moments + [m])
    ensures Watched(s, start, moments + [m]) == Observed(s, Watched(s, start, moments), m)
  {
    hide Healthy, Observed;
    var all := moments + [m];
    assert all[..|moments|] == moments;
    forall n | 0 <= n < |all| ensures Healthy(s, h, Watched(s, start, all[..n]), all[n]) {
      if n < |moments| {
        assert all[..n] == moments[..n];
      }
    }
  }

  // ---------------------------------------------------------------------------
  // Waiting as long as possible
  // ---------------------------------------------------------------------------

  /** When the node goes on at the latest poll before which it does not. */
  function Deadline(h: Pace, w: Watch): int {
    if w.node.phase.ScannerWaiting? then w.startedAt + h.ready else w.dueAt
  }

  /** A poll at which nothing is ready. */
  function Quiet(at: int): Moment { Moment(at, at, Answers(Shown(at), true, false, 0, 0, 0, true)) }

  lemma QuietPoll(s: Settings, h: Pace, w: Watch)
    requires Fits(s, h) && InCycle(s, h, w) && w.idleFrom + 1 < Deadline(h, w)
    ensures Healthy(s, h, w, Quiet(w.idleFrom + 1))
    ensures Observed(s, w, Quiet(w.idleFrom + 1)) == w.(idleFrom := w.idleFrom + 1)
  {
    hide Shown, TimeReached, ElapsedMs;
    var at := w.idleFrom + 1;
    if w.node.phase.ScannerWaiting? {
      ElapsedIsTrue(at, w.startedAt);
    } else {
      DeadlineIsTrue(at, w.dueAt);
    }
  }

  /** The node can be polled every millisecond until just before its deadline. */
  lemma {:induction false} WaitOut(s: Settings, h: Pace, start: int, moments: seq<Moment>) returns (longer: seq<Moment>)
    requires Fits(s, h) && HealthyRun(s, h, start, moments)
    ensures HealthyRun(s, h, start, longer)
    ensures var w := Watched(s, start, moments); Watched(s, start, longer) == w.(idleFrom := Deadline(h, w) - 1)
    decreases Deadline(h, Watched(s, start, moments)) - Watched(s, start, moments).idleFrom
  {
    hide Watched, HealthyRun, Healthy, Observed, Quiet, OnSchedule;
    var w := Watched(s, start, moments);
    HealthyRunOnSchedule(s, h, start, moments);
    IdleBeforeDeadline(s, h, w);
    if w.idleFrom + 1 < Deadline(h, w) {
      QuietPoll(s, h, w);
      OneMore(s, h, start, moments, Quiet(w.idleFrom + 1));
      longer := WaitOut(s, h, start, moments + [Quiet(w.idleFrom + 1)]);
    } else {
      longer := moments;
    }
  }

  lemma IdleBeforeDeadline(s: Settings, h: Pace, w: Watch)
    requires InCycle(s, h, w)
    ensures w.idleFrom < Deadline(h, w)
  {
  }

  // ---------------------------------------------------------------------------
  // One slow cycle
  // ---------------------------------------------------------------------------

  /** The poll that is a whole beat late: the scanner starts or has its reading, the fixed sensor takes its time. */
  function Late(h: Pace, w: Watch): Moment {
    var at := w.idleFrom + h.beat;
    var later := at + match w.node.phase case ServoSettling => 0 case ScannerWaiting => h.readOut case _ => h.fixed;
    Moment(at, later, Answers(Shown(later), true, true, 1000, 1000, 0, true))
  }

  predicate Ready(h: Pace, w: Watch) { w.idleFrom == Deadline(h, w) - 1 }

  lemma LateStart(s: Settings, h: Pace, w: Watch)
    requires Fits(s, h) && InCycle(s, h, w) && Ready(h, w) && w.node.phase.ServoSettling?
    ensures Healthy(s, h, w, Late(h, w))
    ensures var r := Observed(s, w, Late(h, w));
            && r.node.phase.ScannerWaiting? && r.sent == w.sent && r.base == w.base
            && r.startedAt == w.base + s.settleMs + h.beat - 1
  {
    hide Shown, TimeReached, ElapsedMs;
    DeadlineIsTrue(w.idleFrom + h.beat, w.dueAt);
  }

  lemma LateReading(s: Settings, h: Pace, w: Watch)
    requires Fits(s, h) && InCycle(s, h, w) && Ready(h, w) && w.node.phase.ScannerWaiting?
    ensures Healthy(s, h, w, Late(h, w))
    ensures var r := Observed(s, w, Late(h, w));
            && r.node.phase.FixedAGuard? && r.sent == w.sent && r.base == w.base
            && r.scanAt == w.startedAt + h.ready + h.beat - 1 + h.readOut
  {
    hide Shown, TimeReached, ElapsedMs;
  }

  lemma LatePacket(s: Settings, h: Pace, w: Watch)
    requires Fits(s, h) && InCycle(s, h, w) && Ready(h, w) && w.node.phase.FixedAGuard?
    ensures Healthy(s, h, w, Late(h, w))
    ensures var r := Observed(s, w, Late(h, w));
            && r.node.phase.ServoSettling? && r.base == r.idleFrom && |r.sent| == |w.sent| + 1 && r.sent[..|w.sent|] == w.sent
            && r.sent[|w.sent|].scanAt == w.scanAt && r.sent[|w.sent|].sentAt == r.base == w.scanAt + Lag(s, h)
  {
    hide Shown, TimeReached, ElapsedMs;
    DeadlineIsTrue(w.idleFrom + h.beat, w.dueAt);
  }

  /** From settling to waiting, from waiting to the guard, from the guard to the packet, each as late as can be. */
  lemma SlowStep(s: Settings, h: Pace, start: int, moments: seq<Moment>) returns (longer: seq<Moment>, w: Watch)
    requires Fits(s, h) && HealthyRun(s, h, start, moments)
    ensures HealthyRun(s, h, start, longer) && Ready(h, w) && InCycle(s, h, w)
    ensures w == Watched(s, start, moments).(idleFrom := w.idleFrom)
    ensures Healthy(s, h, w, Late(h, w)) ==> Watched(s, start, longer) == Observed(s, w, Late(h, w))
  {
    hide Watched, Healthy, Observed, OnSchedule, InCycle, Late, Ready, HealthyRun;
    var waited := WaitOut(s, h, start, moments);
    w := Watched(s, start, waited);
    HealthyRunOnSchedule(s, h, start, waited);
    WaitedIsReady(h, Watched(s, start, moments), w);
    if Healthy(s, h, w, Late(h, w)) {
      OneMore(s, h, start, waited, Late(h, w));
      longer := waited + [Late(h, w)];
    } else {
      longer := waited;
    }
  }

  lemma WaitedIsReady(h: Pace, v: Watch, w: Watch)
    requires w == v.(idleFrom := Deadline(h, v) - 1)
    ensures Ready(h, w)
  {
  }

  /** The node has just sent a packet, or started. */
  predicate Fresh(w: Watch) { w.node.phase.ServoSettling? && w.idleFrom == w.base }

  lemma SlowCycle(s: Settings, h: Pace, start: int, moments: seq<Moment>) returns (longer: seq<Moment>)
    requires Fits(s, h) && HealthyRun(s, h, start, moments) && Fresh(Watched(s, start, moments))
    ensures HealthyRun(s, h, start, longer) && Fresh(Watched(s, start, longer))
    ensures var w, r := Watched(s, start, moments), Watched(s, start, longer);
            && |r.sent| == |w.sent| + 1 && r.sent[..|w.sent|] == w.sent
            && r.base == w.base + Cycle(s, h) == r.sent[|w.sent|].sentAt == r.sent[|w.sent|].scanAt + Lag(s, h)
  {
    hide Watched, Healthy, Observed, InCycle, Late, Ready, HealthyRun, Fits;
    var w;
    longer, w := SlowStep(s, h, start, moments);
    LateStart(s, h, w);
    longer, w := SlowStep(s, h, start, longer);
    LateReading(s, h, w);
    longer, w := SlowStep(s, h, start, longer);
    LatePacket(s, h, w);
  }

  /** A run of n packets, each a whole cycle after the last and a whole lag after its scan. */
  lemma {:induction false} SlowRun(s: Settings, h: Pace, start: int, n: nat) returns (moments: seq<Moment>)
    requires Fits(s, h)
    ensures HealthyRun(s, h, start, moments) && Fresh(Watched(s, start, moments))
    ensures var w := Watched(s, start, moments);
            && |w.sent| == n && w.base == start + n * Cycle(s, h)
            && forall k | 0 <= k < n ::
                 w.sent[k].sentAt == start + (k + 1) * Cycle(s, h) && w.sent[k].scanAt == w.sent[k].sentAt - Lag(s, h)
    decreases n
  {
    hide HealthyRun, Cycle, Lag, Fits, Watched;
    if n == 0 {
      moments := [];
      NothingYet(s, h, start);
      assert 0 * Cycle(s, h) == 0;
    } else {
      var before := SlowRun(s, h, start, n - 1);
      moments := SlowCycle(s, h, start, before);
      assert n * Cycle(s, h) == (n - 1) * Cycle(s, h) + Cycle(s, h);
      var w, r := Watched(s, start, before), Watched(s, start, moments);
      forall k | 0 <= k < n
        ensures r.sent[k].sentAt == start + (k + 1) * Cycle(s, h) && r.sent[k].scanAt == r.sent[k].sentAt - Lag(s, h)
      {
        if k < n - 1 {
          assert r.sent[k] == r.sent[..n - 1][k] == w.sent[k];
        }
      }
    }
  }

  lemma NothingYet(s: Settings, h: Pace, start: int)
    ensures HealthyRun(s, h, start, []) && Fresh(Watched(s, start, []))
    ensures Watched(s, start, []).sent == [] && Watched(s, start, []).base == start
  {
  }

  // ---------------------------------------------------------------------------
  // Exactly long enough
  // ---------------------------------------------------------------------------

  /** Packet m is the next in-sector packet after packet n. */
  ghost predicate NextInSector(sent: seq<Stamped>, n: nat, m: nat) {
    && n < m < |sent| && InSector(sent[n].packet.angle) && InSector(sent[m].packet.angle)
    && forall k | n < k < m :: !InSector(sent[k].packet.angle)
  }

  /** The scan of an in-sector packet is not stale before the next one has been sent. */
  ghost predicate EvidenceOutlasts(sent: seq<Stamped>) {
    forall n: nat, m: nat | NextInSector(sent, n, m) :: sent[m].sentAt - sent[n].scanAt <= EVIDENCE_STALE_MS
  }

  /** In every healthy run. */
  ghost predicate AlwaysOutlasts(s: Settings, h: Pace) {
    forall start: int, moments: seq<Moment> | HealthyRun(s, h, start, moments) ::
      EvidenceOutlasts(Watched(s, start, moments).sent)
  }

  lemma ShortEnoughOutlasts(s: Settings, h: Pace)
    requires s.sweep == FRONT && Fits(s, h) && 12 * Cycle(s, h) + Lag(s, h) <= EVIDENCE_STALE_MS
    ensures AlwaysOutlasts(s, h)
  {
    hide HealthyRun, Watched, Cycle, Lag, InSector;
    forall start: int, moments: seq<Moment> | HealthyRun(s, h, start, moments)
      ensures EvidenceOutlasts(Watched(s, start, moments).sent)
    {
      var sent := Watched(s, start, moments).sent;
      forall n: nat, m: nat | NextInSector(sent, n, m) ensures sent[m].sentAt - sent[n].scanAt <= EVIDENCE_STALE_MS {
        NextComesInTime(s, h, start, moments, n, m);
      }
    }
  }

  lemma NextComesInTime(s: Settings, h: Pace, start: int, moments: seq<Moment>, n: nat, m: nat)
    requires s.sweep == FRONT && Fits(s, h) && HealthyRun(s, h, start, moments)
    requires NextInSector(Watched(s, start, moments).sent, n, m)
    ensures var sent := Watched(s, start, moments).sent;
            sent[m].sentAt - sent[n].scanAt <= 12 * Cycle(s, h) + Lag(s, h)
  {
    hide HealthyRun, Watched, Cycle, Lag, InCycle, InSector, After;
    var w := Watched(s, start, moments);
    HealthyRunOnSchedule(s, h, start, moments);
    WatchedFollowsSweep(s, start, moments);
    var back := SectorWithinTwelve(n);
    assert m <= back;
    CyclesAddUp(s, h, start, w, n, m);
    CycleIsPositive(s, h);
    AtMostTwelve(m - n, Cycle(s, h));
    assert WellStamped(s, h, w.sent[n]);
  }

  /** The slowest sweep from +50 degrees over +80 and back attains the bound. */
  lemma SlowestExcursion(s: Settings, h: Pace) returns (moments: seq<Moment>)
    requires s.sweep == FRONT && Fits(s, h)
    ensures HealthyRun(s, h, 0, moments)
    ensures var sent := Watched(s, 0, moments).sent;
            NextInSector(sent, 26, 38) && sent[38].sentAt - sent[26].scanAt == 12 * Cycle(s, h) + Lag(s, h)
  {
    hide HealthyRun, Watched, Cycle, Lag, After;
    moments := SlowRun(s, h, 0, 39);
    WatchedFollowsSweep(s, 0, moments);
    TwelveIsExact();
    assert (38 + 1) * Cycle(s, h) - (26 + 1) * Cycle(s, h) == 12 * Cycle(s, h);
  }

  /** For any settings of the front node and any pace: in every healthy run evidence stands until the next
      in-sector packet has been sent if and only if twelve cycles and one lag are no longer than it may stand. */
  lemma OutlastsExactly(s: Settings, h: Pace)
    requires s.sweep == FRONT && Fits(s, h)
    ensures AlwaysOutlasts(s, h) <==> 12 * Cycle(s, h) + Lag(s, h) <= EVIDENCE_STALE_MS
  {
    hide HealthyRun, Watched, Cycle, Lag, NextInSector;
    if 12 * Cycle(s, h) + Lag(s, h) <= EVIDENCE_STALE_MS {
      ShortEnoughOutlasts(s, h);
    } else {
      var moments := SlowestExcursion(s, h);
      var sent := Watched(s, 0, moments).sent;
      assert NextInSector(sent, 26, 38);
      assert !EvidenceOutlasts(sent);
    }
  }

  /** With the configured times the node must be polled every millisecond: every two milliseconds is too rare. */
  lemma PolledEveryMillisecondExactly(beat: int)
    requires Fits(SLOWEST, EVERY_MS.(beat := beat))
    ensures AlwaysOutlasts(SLOWEST, EVERY_MS.(beat := beat)) <==> beat == 1
  {
    hide AlwaysOutlasts;
    OutlastsExactly(SLOWEST, EVERY_MS.(beat := beat));
  }
}
