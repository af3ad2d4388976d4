/** From the node's packets to the coverage the truck relies on: with a healthy front node, packets
    delivered promptly and each looked at, the evidence cache never lapses once it has begun. */
module FrontCoverage {
  import opened Options
  import opened Clock
  import opened ScanSweep
  import opened FrontEvidence
  import opened EvidenceSoundness
  import NodeLink
  import SensorNode
  import opened SensorTiming

  /** The line carries the packet, with whatever the fixed sensor saw. */
  predicate Carried(p: NodeLink.Packet, st: Stamped) {
    && p.sequence == st.packet.sequence && p.nodeMs == st.packet.sentMs
    && p.angle == st.packet.angle && p.scanMm == st.packet.scanMm && p.scanMs == st.packet.scanMs
    && p.ScannerHealthy()
  }

  /** How many packets the events have received. */
  function Got(events: seq<Event>): nat {
    if events == [] then 0 else Got(events[..|events| - 1]) + if events[|events| - 1].Received? then 1 else 0
  }

  /** The packets arrive in order, none before it was sent, none lost. */
  ghost predicate InTurn(sent: seq<Stamped>, events: seq<Event>, n: nat)
    requires n < |events|
  {
    var k := Got(events[..n]);
    events[n].Received? ==> k < |sent| && Carried(events[n].packet, sent[k]) && sent[k].sentAt <= events[n].at
  }

  /** At a consultation every packet sent longer ago than the delay has arrived; the node is watched until then. */
  ghost predicate Prompt(sent: seq<Stamped>, until: int, events: seq<Event>, n: nat, delay: int)
    requires n < |events|
  {
    var j := Got(events[..n]);
    events[n].Consulted? ==> events[n].at <= (if j < |sent| then sent[j].sentAt else until) + delay
  }

  /** No two packets arrive without a consultation between them. */
  predicate LookedBetween(events: seq<Event>, n: nat)
    requires n < |events|
  {
    n > 0 && events[n].Received? ==> events[n - 1].Consulted?
  }

  ghost predicate Delivered(sent: seq<Stamped>, until: int, events: seq<Event>, delay: int) {
    && (forall n | 0 <= n < |events| :: InTurn(sent, events, n))
    && (forall n | 0 <= n < |events| :: Prompt(sent, until, events, n, delay))
    && (forall n | 0 <= n < |events| :: LookedBetween(events, n))
  }

  // ---------------------------------------------------------------------------
  // What the log shows
  // ---------------------------------------------------------------------------

  /** An entry of the log shows a packet that has arrived, from the one boot. */
  predicate Shows(sent: seq<Stamped>, j: nat, e: Entry) {
    e.Seen? ==>
      && 1 <= e.id <= j && e.id <= |sent| && e.boot == 0
      && Carried(e.packet, sent[e.id - 1]) && sent[e.id - 1].sentAt <= e.receivedAt
  }

  ghost predicate AllShow(sent: seq<Stamped>, j: nat, log: seq<Entry>) {
    forall a | 0 <= a < |log| :: Shows(sent, j, log[a])
  }

  /** Once a packet is seen every later look sees one, and never an earlier one. */
  ghost predicate NeverBack(log: seq<Entry>) {
    forall a, b | 0 <= a < b < |log| && log[a].Seen? :: log[b].Seen? && log[a].id <= log[b].id
  }

  ghost predicate IsSeen(log: seq<Entry>, id: nat) {
    exists a | 0 <= a < |log| :: log[a].Seen? && log[a].id == id
  }

  /** The link holds the last packet that arrived. */
  predicate Linked(sent: seq<Stamped>, j: nat, w: World) {
    && w.id == j <= |sent| && w.boot == 0
    && w.link.hasPacket == (j > 0)
    && (j > 0 ==> Carried(w.link.packet, sent[j - 1]) && sent[j - 1].sentAt <= w.receivedAt)
  }

  /** The node's packets are numbered from one and fewer than the numbers of 32 bits. */
  predicate Numbered(sent: seq<Stamped>) {
    |sent| < WRAP - 1 && forall k | 0 <= k < |sent| :: sent[k].packet.sequence == Shown(k + 1)
  }

  ghost predicate Following(sent: seq<Stamped>, events: seq<Event>, w: World, log: seq<Entry>) {
    var j := Got(events);
    && Linked(sent, j, w) && AllShow(sent, j, log) && NeverBack(log)
    && (forall i | 1 <= i < j :: IsSeen(log, i))
    && (events != [] && events[|events| - 1].Consulted? && j > 0 ==> IsSeen(log, j))
    && (log != [] && log[|log| - 1].Seen? ==> log[|log| - 1].id <= j)
  }

  /** The next packet of the node is always accepted and never taken for a restart. */
  lemma NextIsAccepted(sent: seq<Stamped>, j: nat, w: World, p: NodeLink.Packet)
    requires Numbered(sent) && j < |sent| && Linked(sent, j, w) && Carried(p, sent[j])
    ensures NodeLink.Accepts(w.link, p)
    ensures w.link.hasPacket ==> !NodeLink.ProbableReboot(w.link.packet, p)
  {
    if j > 0 {
      assert Shown(j) == j && Shown(j + 1) == j + 1;
      assert w.link.packet.sequence == j && p.sequence == j + 1;
      assert NodeLink.Advance(w.link.packet, p) == 1;
    }
  }

  lemma GotStep(events: seq<Event>)
    requires events != []
    ensures Got(events) == Got(events[..|events| - 1]) + if events[|events| - 1].Received? then 1 else 0
  {
  }

  lemma ReceivingFollows(sent: seq<Stamped>, events: seq<Event>, w: World, log: seq<Entry>, e: Event)
    requires Numbered(sent) && Following(sent, events, w, log) && e.Received?
    requires Got(events) < |sent| && Carried(e.packet, sent[Got(events)]) && sent[Got(events)].sentAt <= e.at
    requires events != [] ==> events[|events| - 1].Consulted?
    ensures Following(sent, events + [e], Step(w, e), log)
  {
    hide NeverBack, Carried;
    var j := Got(events);
    GotStep(events + [e]);
    assert (events + [e])[..|events|] == events;
    NextIsAccepted(sent, j, w, e.packet);
    forall a | 0 <= a < |log| ensures Shows(sent, j + 1, log[a]) {
      assert Shows(sent, j, log[a]);
    }
    if events == [] {
      assert j == 0;
    }
  }

  /** At a prompt consultation the link's packet is fresh. */
  lemma PacketIsFresh(sent: seq<Stamped>, j: nat, w: World, at: int)
    requires j > 0 && Linked(sent, j, w) && LinkTrue(w) && w.now <= at
    requires at <= sent[j - 1].sentAt + NodeLink.STALE_MS
    ensures NodeLink.IsFresh(w.link, Shown(at))
  {
    ElapsedIsTrue(at, w.receivedAt);
  }

  lemma ConsultingFollows(sent: seq<Stamped>, events: seq<Event>, w: World, log: seq<Entry>, at: int)
    requires Following(sent, events, w, log)
    requires Got(events) > 0 ==> NodeLink.IsFresh(w.link, Shown(at))
    ensures Following(sent, events + [Consulted(at)], Step(w, Consulted(at)), log + [Looked(w, at)])
  {
    hide Carried, Consult;
    var j, e, look := Got(events), Consulted(at), Looked(w, at);
    GotStep(events + [e]);
    assert (events + [e])[..|events|] == events;
    var now := log + [look];
    forall a | 0 <= a < |now| ensures Shows(sent, j, now[a]) {
      if a < |log| {
        assert Shows(sent, j, log[a]);
      }
    }
    forall a, b | 0 <= a < b < |now| && now[a].Seen? ensures now[b].Seen? && now[a].id <= now[b].id {
      assert now[a] == log[a] && Shows(sent, j, log[a]);
      if b < |log| {
        assert now[b] == log[b];
      }
    }
    forall i | 1 <= i < j ensures IsSeen(now, i) {
      assert IsSeen(log, i);
      var a :| 0 <= a < |log| && log[a].Seen? && log[a].id == i;
      assert now[a] == log[a];
    }
    if j > 0 {
      assert now[|log|] == look && look.Seen? && look.id == j;
    }
  }

  // ---------------------------------------------------------------------------
  // Whole runs
  // ---------------------------------------------------------------------------

  /** The node has been on schedule and is watched to no more than a cycle past its last packet. */
  ghost predicate Scheduled(s: SensorNode.Settings, h: Pace, start: int, node: Watch) {
    OnSchedule(s, h, start, node) && node.idleFrom <= node.base + Cycle(s, h)
  }

  /** At a prompt consultation the link's packet was sent no more than a cycle and a delay ago. */
  lemma PromptIsRecent(
    s: SensorNode.Settings, h: Pace, start: int, node: Watch, events: seq<Event>, n: nat, delay: int)
    requires Scheduled(s, h, start, node) && n < |events| && events[n].Consulted?
    requires Prompt(node.sent, node.idleFrom, events, n, delay)
    requires 0 < Got(events[..n]) <= |node.sent|
    ensures events[n].at <= node.sent[Got(events[..n]) - 1].sentAt + Cycle(s, h) + delay
  {
    hide Got, Cycle, WellStamped;
    var j := Got(events[..n]);
    if j < |node.sent| {
      assert Follows(s, h, node.sent[j - 1].sentAt, node.sent[j].sentAt);
    }
  }

  lemma DeliveredPrefix(sent: seq<Stamped>, until: int, events: seq<Event>, n: nat, delay: int)
    requires Delivered(sent, until, events, delay) && n <= |events|
    ensures Delivered(sent, until, events[..n], delay)
  {
    hide Got, Carried;
    forall m | 0 <= m < n
      ensures InTurn(sent, events[..n], m) && Prompt(sent, until, events[..n], m, delay) && LookedBetween(events[..n], m)
    {
      assert events[..n][..m] == events[..m];
      assert InTurn(sent, events, m) && Prompt(sent, until, events, m, delay) && LookedBetween(events, m);
    }
  }

  lemma RegularPart(start: int, events: seq<Event>, n: nat)
    requires RegularRun(start, events) && n <= |events|
    ensures RegularRun(start, events[..n])
  {
    hide Regular, Run;
    forall m | 0 <= m < n ensures Regular(Run(start, events[..n][..m]).0, Run(start, events[..n][..m]).1, events[..n][m]) {
      assert events[..n][..m] == events[..m];
    }
  }

  /** Every packet that has arrived has been looked at, except possibly the last, and the looks are in order. */
  lemma {:induction false} RunFollows(
    s: SensorNode.Settings, h: Pace, nodeStart: int, node: Watch, start: int, events: seq<Event>, delay: int)
    requires Scheduled(s, h, nodeStart, node) && Numbered(node.sent)
    requires Delivered(node.sent, node.idleFrom, events, delay) && RegularRun(start, events)
    requires Cycle(s, h) + delay <= NodeLink.STALE_MS
    ensures Following(node.sent, events, Run(start, events).0, Run(start, events).1)
    decreases |events|
  {
    hide Scheduled, Step, Looked, Delivered, Linked, AllShow, NeverBack, Regular, RegularRun, Numbered, Cycle;
    if events == [] {
      StartingFollows(node.sent, start);
    } else {
      var n := |events| - 1;
      var init, e := events[..n], events[n];
      DeliveredPrefix(node.sent, node.idleFrom, events, n, delay);
      RegularPart(start, events, n);
      RunFollows(s, h, nodeStart, node, start, init, delay);
      var w, log := Run(start, init).0, Run(start, init).1;
      assert events == init + [e];
      DeliveredAt(node.sent, node.idleFrom, events, n, delay);
      if e.Received? {
        ReceivingFollows(node.sent, init, w, log, e);
      } else {
        if Got(init) > 0 {
          LinkedCount(node.sent, Got(init), w);
          PromptIsRecent(s, h, nodeStart, node, events, n, delay);
          RegularTells(start, events);
          PacketIsFresh(node.sent, Got(init), w, e.at);
        }
        ConsultingFollows(node.sent, init, w, log, e.at);
      }
    }
  }

  lemma StartingFollows(sent: seq<Stamped>, start: int)
    ensures Following(sent, [], Run(start, []).0, Run(start, []).1)
  {
  }

  lemma DeliveredAt(sent: seq<Stamped>, until: int, events: seq<Event>, n: nat, delay: int)
    requires Delivered(sent, until, events, delay) && n < |events|
    ensures InTurn(sent, events, n) && Prompt(sent, until, events, n, delay) && LookedBetween(events, n)
  {
    hide InTurn, Prompt, LookedBetween;
  }

  lemma LinkedCount(sent: seq<Stamped>, j: nat, w: World)
    requires Linked(sent, j, w)
    ensures j <= |sent|
  {
  }

  /** Before the last event of a regular run the link is true, and the event comes after all others. */
  lemma RegularTells(start: int, events: seq<Event>)
    requires RegularRun(start, events) && events != []
    ensures var w := Run(start, events[..|events| - 1]).0; LinkTrue(w) && w.now <= events[|events| - 1].at
  {
    hide Run, CountersApart;
    var n := |events| - 1;
    RegularPart(start, events, n);
    RunKeepsInv(start, events[..n]);
    assert Regular(Run(start, events[..n]).0, Run(start, events[..n]).1, events[n]);
  }

  // ---------------------------------------------------------------------------
  // Coverage
  // ---------------------------------------------------------------------------

  /** The last packet before j that lies in the sector. */
  lemma {:induction false} LastInSector(sent: seq<Stamped>, j: nat, first: nat) returns (i: nat)
    requires first < j <= |sent| && InSector(sent[first].packet.angle)
    ensures i < j && InSector(sent[i].packet.angle)
    ensures forall k | i < k < j :: !InSector(sent[k].packet.angle)
  {
    i := j - 1;
    while !InSector(sent[i].packet.angle)
      invariant first <= i < j
      invariant forall k | i < k < j :: !InSector(sent[k].packet.angle)
      decreases i
    {
      i := i - 1;
    }
  }

  /** The log entry that shows the last in-sector packet is a source for its range. */
  lemma LastInSectorIsSource(
    s: SensorNode.Settings, h: Pace, sent: seq<Stamped>, j: nat, log: seq<Entry>, i: nat, at: int) returns (k: nat)
    requires AllShow(sent, j, log) && NeverBack(log) && i < j <= |sent| && IsSeen(log, i + 1)
    requires InSector(sent[i].packet.angle) && WellStamped(s, h, sent[i])
    requires forall m | i < m < j :: !InSector(sent[m].packet.angle)
    requires Lag(s, h) < WRAP && at - sent[i].scanAt <= EVIDENCE_STALE_MS
    ensures Source(log, k, at)
  {
    hide Lag;
    k :| 0 <= k < |log| && log[k].Seen? && log[k].id == i + 1;
    assert Shows(sent, j, log[k]);
    var st := sent[i];
    ElapsedIsTrue(st.sentAt, st.scanAt);
    assert Vouches(log[k], at);
    forall b | k < b < |log| ensures Upholds(log[k], log[b]) {
      assert Shows(sent, j, log[b]);
    }
  }

  /** With a healthy front node whose packets take at most `delay` to arrive and are each looked at, the cache
      vouches for a scanner range at every consultation once an in-sector packet has arrived: twelve cycles,
      one lag and one delay are no longer than evidence may stand. */
  lemma CoverageNeverLapses(
    s: SensorNode.Settings, h: Pace, nodeStart: int, moments: seq<Moment>, start: int, events: seq<Event>, at: int,
    delay: int, first: nat)
    requires s.sweep == FRONT && Fits(s, h) && HealthyRun(s, h, nodeStart, moments)
    requires |Watched(s, nodeStart, moments).sent| < WRAP - 1
    requires var node := Watched(s, nodeStart, moments);
             && Delivered(node.sent, node.idleFrom, events + [Consulted(at)], delay)
             && first < Got(events) <= |node.sent| && InSector(node.sent[first].packet.angle)
    requires RegularRun(start, events + [Consulted(at)])
    requires Cycle(s, h) + delay <= NodeLink.STALE_MS
    requires 12 * Cycle(s, h) + Lag(s, h) + delay <= EVIDENCE_STALE_MS
    ensures Consult(Run(start, events).0.evidence, Run(start, events).0.link, Shown(at)).1.Some?
  {
    hide Watched, Run, HealthyRun, InCycle, Delivered, RegularRun, Cycle, Lag, Consult, AllShow, NeverBack, Source,
      OnSchedule, WellStamped, Looked, After, Fits, Prompt;
    var node, all := Watched(s, nodeStart, moments), events + [Consulted(at)];
    HealthyRunOnSchedule(s, h, nodeStart, moments);
    NeverBehind(s, h, node);
    WatchedFollowsSweep(s, nodeStart, moments);
    RunFollows(s, h, nodeStart, node, start, all, delay);
    assert all[..|events|] == events && all[|events|] == Consulted(at);
    GotStep(all);
    var j := Got(events);
    var i := LastInSector(node.sent, j, first);
    var m := SectorWithinTwelve(i);
    assert j <= m;
    DeliveredAt(node.sent, node.idleFrom, all, |events|, delay);
    PromptIsRecent(s, h, nodeStart, node, all, |events|, delay);
    AgeOfLast(s, h, nodeStart, node, i, j, at, delay);
    LagIsShort(s, h);
    var (w, log) := Run(start, events);
    OneMoreLook(start, events, at);
    var k := LastInSectorIsSource(s, h, node.sent, j, log + [Looked(w, at)], i, at);
    SourceHasRange(log + [Looked(w, at)], k, at);
    CacheVouchesExactly(start, events, at, (log + [Looked(w, at)])[k].packet.scanMm);
  }

  /** A scan that at most twelve packets have followed, when the last one was sent a cycle and a delay ago. */
  lemma AgeOfLast(s: SensorNode.Settings, h: Pace, start: int, node: Watch, i: nat, j: nat, at: int, delay: int)
    requires Fits(s, h) && OnSchedule(s, h, start, node) && i < j <= |node.sent| && j <= i + 12
    requires at <= node.sent[j - 1].sentAt + Cycle(s, h) + delay
    ensures WellStamped(s, h, node.sent[i])
    ensures at - node.sent[i].scanAt <= 12 * Cycle(s, h) + Lag(s, h) + delay
  {
    hide Cycle, Lag;
    CyclesAddUp(s, h, start, node, i, j - 1);
    CycleIsPositive(s, h);
    AtMostTwelve(j - i, Cycle(s, h));
    assert (j - 1 - i) * Cycle(s, h) + Cycle(s, h) == (j - i) * Cycle(s, h);
    assert WellStamped(s, h, node.sent[i]);
  }

  lemma LagIsShort(s: SensorNode.Settings, h: Pace)
    requires Fits(s, h)
    ensures Lag(s, h) < WRAP
  {
  }

  lemma OneMoreLook(start: int, events: seq<Event>, at: int)
    ensures Run(start, events + [Consulted(at)]).1 == Run(start, events).1 + [Looked(Run(start, events).0, at)]
  {
    hide Step, Looked;
    assert (events + [Consulted(at)])[..|events|] == events;
  }

  lemma SourceHasRange(log: seq<Entry>, k: nat, at: int)
    requires Source(log, k, at)
    ensures k < |log| && log[k].Seen?
  {
  }

  /** As configured, with packets no more than 35 ms on the way, coverage never lapses once seven packets have
      arrived. */
  lemma ConfiguredCoverageNeverLapses(nodeStart: int, moments: seq<Moment>, start: int, events: seq<Event>, at: int)
    requires HealthyRun(SLOWEST, EVERY_MS, nodeStart, moments)
    requires var node := Watched(SLOWEST, nodeStart, moments);
             && |node.sent| < WRAP - 1
             && Delivered(node.sent, node.idleFrom, events + [Consulted(at)], 35)
             && 7 <= Got(events) <= |node.sent|
    requires RegularRun(start, events + [Consulted(at)])
    ensures Consult(Run(start, events).0.evidence, Run(start, events).0.link, Shown(at)).1.Some?
  {
    hide Watched, HealthyRun, Run, RegularRun, Delivered, Consult, After, Got;
    WatchedFollowsSweep(SLOWEST, nodeStart, moments);
    FrontSweep(6);
    CoverageNeverLapses(SLOWEST, EVERY_MS, nodeStart, moments, start, events, at, 35, 6);
  }
}
