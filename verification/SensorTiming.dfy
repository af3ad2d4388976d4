/** How long a healthy node takes from packet to packet and from a scan to its packet,
    in true time, from the deadlines it sets and the way it is polled. */
module SensorTiming {
  import opened Options
  import opened Clock
  import opened ScanSweep
  import opened SensorNode

  /** One poll of the node at an unbounded time; `later` is the time after whatever it had to wait for. */
  datatype Moment = Moment(at: int, later: int, answers: Answers)

  /** How a healthy node is served: the scanner has its reading at most `ready` after its start, reading it out
      takes at most `readOut`, a fixed sensor at most `fixed`, and the node is polled again at most `beat` later. */
  datatype Pace = Pace(ready: int, readOut: int, fixed: int, beat: int)

  /** The deadlines are far from half a wrap of the clock. */
  predicate Fits(s: Settings, h: Pace) {
    && !s.hasFixedB
    && 1 <= s.settleMs && 1 <= s.guardMs && 1 <= h.ready <= s.readTimeoutMs
    && 0 <= h.readOut && 0 <= h.fixed && 1 <= h.beat
    && s.settleMs + s.guardMs + h.ready + h.readOut + h.fixed + 3 * h.beat < HALF
  }

  /** A packet with the true times at which its scan was taken and it was sent. */
  datatype Stamped = Stamped(packet: Packet, scanAt: int, sentAt: int)

  /** The node and what an observer with an unbounded clock notes: the packets, when the last one was sent, the
      deadline that is running, when the scan was started and taken, and since when a poll is due. */
  datatype Watch = Watch(
    node: Node, sent: seq<Stamped>, base: int, dueAt: int, startedAt: int, scanAt: int, idleFrom: int)

  function FirstWatch(s: Settings, start: int): Watch {
    Watch(SensorNode.Starting(s, Shown(start), true), [], start, start + s.settleMs, start, start, start)
  }

  function PollOf(m: Moment): Use { Polled(Shown(m.at), m.answers) }

  function Observed(s: Settings, w: Watch, m: Moment): Watch {
    var (n, p) := Updated(s, w.node, Shown(m.at), m.answers);
    if p.Some? then
      Watch(n, w.sent + [Stamped(p.value, w.scanAt, m.later)], m.later, m.later + s.settleMs, w.startedAt, w.scanAt, m.later)
    else if n.phase == w.node.phase then w.(node := n, idleFrom := m.at)
    else if n.phase.ScannerWaiting? then w.(node := n, startedAt := m.at, scanAt := m.at, idleFrom := m.at)
    else
      w.(node := n, dueAt := m.later + s.guardMs, idleFrom := m.later,
         scanAt := if w.node.phase.ScannerWaiting? && m.answers.ready then m.later else m.at)
  }

  function Watched(s: Settings, start: int, moments: seq<Moment>): Watch {
    if moments == [] then FirstWatch(s, start)
    else Observed(s, Watched(s, start, moments[..|moments| - 1]), moments[|moments| - 1])
  }

  /** The poll comes in time, the clock of the node is right and the hardware is healthy and sees something. */
  predicate Healthy(s: Settings, h: Pace, w: Watch, m: Moment) {
    && w.idleFrom <= m.at <= w.idleFrom + h.beat
    && m.at <= m.later && m.answers.later == Shown(m.later)
    && match w.node.phase
       case ServoSettling => m.answers.started
       case ScannerWaiting =>
         && (m.at >= w.startedAt + h.ready ==> m.answers.ready)
         && (m.answers.ready ==> m.later <= m.at + h.readOut && 1 <= m.answers.scanMm <= SCANNER_MAX_MM)
       case _ => TimeReached(Shown(m.at), w.node.nextActionMs) ==> m.later <= m.at + h.fixed && m.answers.wrote
  }

  ghost predicate HealthyRun(s: Settings, h: Pace, start: int, moments: seq<Moment>) {
    forall n | 0 <= n < |moments| :: Healthy(s, h, Watched(s, start, moments[..n]), moments[n])
  }

  /** The longest time from packet to packet, and from a scan to its packet. */
  function Cycle(s: Settings, h: Pace): int {
    s.settleMs + h.ready + h.readOut + s.guardMs + h.fixed + 3 * (h.beat - 1)
  }

  function Lag(s: Settings, h: Pace): int { s.guardMs + h.fixed + h.beat - 1 }

  // ---------------------------------------------------------------------------
  // The invariant
  // ---------------------------------------------------------------------------

  /** Where the node stands in its cycle, in true time. */
  predicate InCycle(s: Settings, h: Pace, w: Watch) {
    var n := w.node;
    && n.scanning && n.servoOk && n.settleMs == s.settleMs
    && w.base <= w.idleFrom
    && match n.phase
       case ServoSettling =>
         && w.dueAt == w.base + s.settleMs && n.nextScanMs == Shown(w.dueAt)
         && w.idleFrom < w.dueAt
       case ScannerWaiting =>
         && w.base + s.settleMs <= w.startedAt <= w.base + s.settleMs + h.beat - 1
         && n.startedMs == Shown(w.startedAt)
         && w.startedAt <= w.idleFrom < w.startedAt + h.ready
       case FixedAGuard =>
         && w.base + s.settleMs <= w.scanAt <= w.base + s.settleMs + h.ready + h.readOut + 2 * (h.beat - 1)
         && n.pendingScanMs == Shown(w.scanAt) && 1 <= n.pendingScanMm <= SCANNER_MAX_MM
         && w.dueAt == w.scanAt + s.guardMs && n.nextActionMs == Shown(w.dueAt)
         && w.scanAt <= w.idleFrom < w.dueAt
       case FixedBGuard => false
  }

  /** The packet tells the true times of its scan and its sending, by the clock of the node. */
  predicate WellStamped(s: Settings, h: Pace, st: Stamped) {
    && st.packet.sentMs == Shown(st.sentAt) && st.packet.scanMs == Shown(st.scanAt)
    && 0 <= st.sentAt - st.scanAt <= Lag(s, h)
    && 1 <= st.packet.scanMm <= SCANNER_MAX_MM
  }

  /** One packet follows another after at least a settling time and at most a cycle. */
  predicate Follows(s: Settings, h: Pace, last: int, next: int) { last + s.settleMs <= next <= last + Cycle(s, h) }

  ghost predicate OnSchedule(s: Settings, h: Pace, start: int, w: Watch) {
    && (forall k | 0 <= k < |w.sent| :: WellStamped(s, h, w.sent[k]))
    && (forall k | 0 < k < |w.sent| :: Follows(s, h, w.sent[k - 1].sentAt, w.sent[k].sentAt))
    && w.base == (if w.sent == [] then start else w.sent[|w.sent| - 1].sentAt)
  }

  /** Before a deadline that is less than half a wrap away the test fails, and from it on it holds. */
  lemma DeadlineIsTrue(at: int, due: int)
    requires -HALF < at - due < HALF
    ensures TimeReached(Shown(at), Shown(due)) <==> at >= due
  {
    TimeReachedIsTrue(at, due);
  }

  lemma SettlingStep(s: Settings, h: Pace, w: Watch, m: Moment)
    requires Fits(s, h) && InCycle(s, h, w) && Healthy(s, h, w, m) && w.node.phase.ServoSettling?
    ensures InCycle(s, h, Observed(s, w, m))
    ensures Observed(s, w, m).sent == w.sent && Observed(s, w, m).base == w.base
  {
    hide TimeReached, Shown;
    DeadlineIsTrue(m.at, w.dueAt);
  }

  lemma WaitingStep(s: Settings, h: Pace, w: Watch, m: Moment)
    requires Fits(s, h) && InCycle(s, h, w) && Healthy(s, h, w, m) && w.node.phase.ScannerWaiting?
    ensures InCycle(s, h, Observed(s, w, m))
    ensures Observed(s, w, m).sent == w.sent && Observed(s, w, m).base == w.base
  {
    hide TimeReached, Shown, ElapsedMs;
    ElapsedIsTrue(m.at, w.startedAt);
    ShownSum(m.later, s.guardMs);
  }

  lemma GuardStep(s: Settings, h: Pace, start: int, w: Watch, m: Moment)
    requires Fits(s, h) && InCycle(s, h, w) && Healthy(s, h, w, m) && w.node.phase.FixedAGuard?
    requires OnSchedule(s, h, start, w)
    ensures InCycle(s, h, Observed(s, w, m)) && OnSchedule(s, h, start, Observed(s, w, m))
  {
    hide TimeReached, Shown;
    DeadlineIsTrue(m.at, w.dueAt);
    ShownSum(m.later, s.settleMs);
    var r := Observed(s, w, m);
    if m.at >= w.dueAt {
      var st := r.sent[|w.sent|];
      assert r.sent == w.sent + [st];
      assert WellStamped(s, h, st);
      assert Follows(s, h, w.base, st.sentAt);
    }
  }

  /** In every healthy run the node is on schedule. */
  lemma {:induction false} HealthyRunOnSchedule(s: Settings, h: Pace, start: int, moments: seq<Moment>)
    requires Fits(s, h) && HealthyRun(s, h, start, moments)
    ensures InCycle(s, h, Watched(s, start, moments)) && OnSchedule(s, h, start, Watched(s, start, moments))
    decreases |moments|
  {
    hide InCycle, OnSchedule, Observed, Healthy;
    if moments == [] {
      FirstOnSchedule(s, h, start);
    } else {
      var init, m := moments[..|moments| - 1], moments[|moments| - 1];
      forall n | 0 <= n < |init| ensures Healthy(s, h, Watched(s, start, init[..n]), init[n]) {
        assert init[..n] == moments[..n];
      }
      HealthyRunOnSchedule(s, h, start, init);
      var w := Watched(s, start, init);
      assert Healthy(s, h, w, m);
      NoSecondSensor(s, h, w);
      match w.node.phase
      case ServoSettling =>
        SettlingStep(s, h, w, m);
        SameSchedule(s, h, start, w, Observed(s, w, m));
      case ScannerWaiting =>
        WaitingStep(s, h, w, m);
        SameSchedule(s, h, start, w, Observed(s, w, m));
      case FixedAGuard =>
        GuardStep(s, h, start, w, m);
    }
  }

  lemma NoSecondSensor(s: Settings, h: Pace, w: Watch)
    requires InCycle(s, h, w)
    ensures !w.node.phase.FixedBGuard?
  {
  }

  lemma SameSchedule(s: Settings, h: Pace, start: int, w: Watch, r: Watch)
    requires OnSchedule(s, h, start, w) && r.sent == w.sent && r.base == w.base
    ensures OnSchedule(s, h, start, r)
  {
  }

  lemma FirstOnSchedule(s: Settings, h: Pace, start: int)
    requires Fits(s, h)
    ensures InCycle(s, h, FirstWatch(s, start)) && OnSchedule(s, h, start, FirstWatch(s, start))
  {
    ShownSum(start, s.settleMs);
  }

  /** However far the run has come, the last packet, or the start, is at most a cycle back. */
  lemma NeverBehind(s: Settings, h: Pace, w: Watch)
    requires Fits(s, h) && InCycle(s, h, w)
    ensures w.base <= w.idleFrom <= w.base + Cycle(s, h)
  {
  }

  // ---------------------------------------------------------------------------
  // The watched run is the run
  // ---------------------------------------------------------------------------

  function Polls(moments: seq<Moment>): (polls: seq<Use>)
    ensures |polls| == |moments| && OnlyPolled(polls)
  {
    seq(|moments|, n requires 0 <= n < |moments| => PollOf(moments[n]))
  }

  function PacketsOf(sent: seq<Stamped>): (packets: seq<Packet>)
    ensures |packets| == |sent|
    ensures forall k | 0 <= k < |sent| :: packets[k] == sent[k].packet
  {
    seq(|sent|, k requires 0 <= k < |sent| => sent[k].packet)
  }

  /** The observer notes exactly the packets of the node's run, which follow the sweep. */
  lemma {:induction false} WatchedIsRun(s: Settings, start: int, moments: seq<Moment>)
    ensures var w := Watched(s, start, moments);
            Run(s, Shown(start), true, Polls(moments)) == (w.node, PacketsOf(w.sent))
    decreases |moments|
  {
    hide Updated, Starting, Observed;
    if moments == [] {
      assert PacketsOf([]) == [];
    } else {
      var init, m := moments[..|moments| - 1], moments[|moments| - 1];
      WatchedIsRun(s, start, init);
      var polls := Polls(moments);
      assert polls[..|polls| - 1] == Polls(init) && polls[|polls| - 1] == PollOf(m);
      ObservedIsUpdated(s, Watched(s, start, init), m);
    }
  }

  lemma ObservedIsUpdated(s: Settings, w: Watch, m: Moment)
    ensures var (n, p) := Updated(s, w.node, Shown(m.at), m.answers);
            && Observed(s, w, m).node == n
            && PacketsOf(Observed(s, w, m).sent) == (if p.Some? then PacketsOf(w.sent) + [p.value] else PacketsOf(w.sent))
  {
    hide Updated;
    var p := Updated(s, w.node, Shown(m.at), m.answers).1;
    if p.Some? {
      assert Observed(s, w, m).sent == w.sent + [Stamped(p.value, w.scanAt, m.later)];
    }
  }

  lemma WatchedFollowsSweep(s: Settings, start: int, moments: seq<Moment>)
    ensures var w := Watched(s, start, moments);
            forall k | 0 <= k < |w.sent| ::
              w.sent[k].packet.sequence == Shown(k + 1) && w.sent[k].packet.angle == After(s.sweep, k).angle
  {
    hide Run, Watched;
    WatchedIsRun(s, start, moments);
    PacketsAreNumbered(s, Shown(start), true, Polls(moments));
    PacketsFollowSweep(s, Shown(start), true, Polls(moments));
    var w := Watched(s, start, moments);
    forall k | 0 <= k < |w.sent|
      ensures w.sent[k].packet.sequence == Shown(k + 1) && w.sent[k].packet.angle == After(s.sweep, k).angle
    {
      assert PacketsOf(w.sent)[k] == w.sent[k].packet;
    }
  }

  // ---------------------------------------------------------------------------
  // Out of the sector and back
  // ---------------------------------------------------------------------------

  lemma {:induction false} CyclesAddUp(s: Settings, h: Pace, start: int, w: Watch, n: nat, m: nat)
    requires OnSchedule(s, h, start, w) && n <= m < |w.sent|
    ensures w.sent[m].sentAt - w.sent[n].sentAt <= (m - n) * Cycle(s, h)
    decreases m - n
  {
    hide WellStamped, Cycle;
    if n < m {
      CyclesAddUp(s, h, start, w, n, m - 1);
      assert Follows(s, h, w.sent[m - 1].sentAt, w.sent[m].sentAt);
      assert (m - n) * Cycle(s, h) == (m - 1 - n) * Cycle(s, h) + Cycle(s, h);
    }
  }

  /** In a healthy run of the front node the sweep is back in the sector within twelve packets, and the packet
      that says so is sent no more than twelve cycles and one lag after the scan it replaces was taken. */
  lemma SweepComesBack(s: Settings, h: Pace, start: int, moments: seq<Moment>, n: nat) returns (m: nat)
    requires s.sweep == FRONT && Fits(s, h) && HealthyRun(s, h, start, moments)
    ensures n < m <= n + 12
    ensures var w := Watched(s, start, moments);
            m < |w.sent| ==>
              && InSector(w.sent[m].packet.angle)
              && w.sent[m].sentAt - w.sent[n].scanAt <= 12 * Cycle(s, h) + Lag(s, h)
  {
    hide Watched, Cycle, Lag, HealthyRun, After, Follows, InCycle;
    m := SectorWithinTwelve(n);
    var w := Watched(s, start, moments);
    HealthyRunOnSchedule(s, h, start, moments);
    WatchedFollowsSweep(s, start, moments);
    if m < |w.sent| {
      CyclesAddUp(s, h, start, w, n, m);
      assert WellStamped(s, h, w.sent[n]);
      CycleIsPositive(s, h);
      AtMostTwelve(m - n, Cycle(s, h));
    }
  }

  lemma AtMostTwelve(k: nat, cycle: int)
    requires k <= 12 && cycle > 0
    ensures k * cycle <= 12 * cycle
  {
    assert (12 - k) * cycle >= 0;
  }

  lemma CycleIsPositive(s: Settings, h: Pace)
    requires Fits(s, h)
    ensures Cycle(s, h) > 0 && Lag(s, h) > 0
  {
  }

  // The slowest settling the node accepts, its guard, the two timing budgets and a poll every millisecond.
  const SLOWEST := Settings(FRONT, 0, false, 100, 20, 100, 5, 80, 100)
  const EVERY_MS := Pace(20, 0, 20, 1)

  /** With the configured times a cycle takes at most 145 ms, so the sweep is back before the evidence is stale. */
  lemma EvidenceOutlastsExcursion(start: int, moments: seq<Moment>, n: nat) returns (m: nat)
    requires HealthyRun(SLOWEST, EVERY_MS, start, moments)
    ensures Cycle(SLOWEST, EVERY_MS) == LONGEST_CYCLE_MS
    ensures n < m <= n + 12
    ensures var w := Watched(SLOWEST, start, moments);
            m < |w.sent| ==>
              InSector(w.sent[m].packet.angle) && w.sent[m].sentAt - w.sent[n].scanAt <= EVIDENCE_STALE_MS
  {
    hide Watched, HealthyRun;
    m := SweepComesBack(SLOWEST, EVERY_MS, start, moments, n);
  }
}
