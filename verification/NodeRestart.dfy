/** Which packets of a sensor node the link accepts and counts as a restart: for one packet on the two clocks and
    sequences as they are received, and for whole boots of the node on their true times and numbers. */
module NodeRestart {
  import opened Clock
  import opened NodeLink

  // ---------------------------------------------------------------------------
  // One packet
  // ---------------------------------------------------------------------------

  /** A lower number than the last one, from within ten seconds of power-up and more than a second earlier on the
      node's clock. */
  predicate IsRestart(last: Packet, p: Packet) {
    p.sequence < last.sequence && p.nodeMs < 10000 && p.nodeMs + 1000 < last.nodeMs
  }

  /** A number up to half the numbers ahead, counted through the wrap. */
  predicate IsAhead(last: Packet, p: Packet) {
    last.sequence < p.sequence < last.sequence + HALF || p.sequence + HALF < last.sequence
  }

  /** By how much. */
  function Ahead(last: Packet, p: Packet): int {
    if last.sequence <= p.sequence then p.sequence - last.sequence else p.sequence + WRAP - last.sequence
  }

  lemma AdvanceExactly(last: Packet, p: Packet)
    ensures Advance(last, p) == Ahead(last, p) && (IsNewer(last, p) <==> IsAhead(last, p))
  {
    var d := p.sequence - last.sequence;
    if d < 0 {
      ModuloAddsWraps(d, 1);
    }
  }

  lemma RestartExactly(last: Packet, p: Packet)
    ensures ProbableReboot(last, p) <==> IsRestart(last, p)
  {
    if p.nodeMs < last.nodeMs {
      assert ElapsedMs(last.nodeMs, p.nodeMs) == last.nodeMs - p.nodeMs;
    }
  }

  lemma SmallIsShown(x: int)
    requires 0 <= x < WRAP
    ensures Shown(x) == x
  {
  }

  /** A packet is accepted exactly when it is the first, a restart or ahead, and then takes the place of the last one;
      every counter goes up exactly when it should, by as much as it should. */
  lemma AcceptanceExactly(l: Link, p: Packet, now: U32)
    ensures var r := Receive(l, p, now);
            var restart := l.hasPacket && IsRestart(l.packet, p);
            var ahead := l.hasPacket && !restart && IsAhead(l.packet, p);
            && (Accepts(l, p) <==> !l.hasPacket || restart || ahead)
            && (if Accepts(l, p) then r.packet == p && r.receivedMs == now && r.hasPacket
                else r.packet == l.packet && r.receivedMs == l.receivedMs && r.hasPacket)
            && r.stats.accepted == Shown(l.stats.accepted + if Accepts(l, p) then 1 else 0)
            && r.stats.outOfOrder == Shown(l.stats.outOfOrder + if Accepts(l, p) then 0 else 1)
            && r.stats.reboots == Shown(l.stats.reboots + if restart then 1 else 0)
            && r.stats.dropped == Shown(l.stats.dropped + if ahead then Ahead(l.packet, p) - 1 else 0)
  {
    hide ProbableReboot, IsRestart, IsAhead, Advance, Ahead;
    SmallIsShown(l.stats.accepted);
    SmallIsShown(l.stats.outOfOrder);
    SmallIsShown(l.stats.reboots);
    SmallIsShown(l.stats.dropped);
    RestartExactly(l.packet, p);
    AdvanceExactly(l.packet, p);
  }

  /** The scanner is healthy with bits 0 and 3 of the mask both set, the fixed sensor with bit 1. */
  lemma HealthExactly(p: Packet)
    ensures p.ScannerHealthy() <==> p.health & 0x09 == 0x09
    ensures p.FixedHealthy() <==> p.health & 0x02 == 0x02
  {
  }

  /** A packet is fresh for half a second after it was received, on true times. */
  lemma FreshExactly(l: Link, receivedAt: int, at: int)
    requires l.receivedMs == Shown(receivedAt) && receivedAt <= at < receivedAt + WRAP
    ensures IsFresh(l, Shown(at)) <==> l.hasPacket && at <= receivedAt + 500
  {
    ElapsedIsTrue(at, receivedAt);
  }

  // ---------------------------------------------------------------------------
  // A new boot
  // ---------------------------------------------------------------------------

  /** A packet by its true time since power-up and its true number. */
  datatype Frame = Frame(ms: nat, number: nat)

  /** The packet carries the frame. */
  predicate Carries(p: Packet, f: Frame) { p.nodeMs == Shown(f.ms) && p.sequence == Shown(f.number) }

  /** Packets of one boot in order, before its clock or numbers come round, with no gap of half the numbers. */
  predicate IsBoot(boot: seq<Frame>) {
    && (forall k | 0 <= k < |boot| :: boot[k].ms < WRAP && boot[k].number < WRAP)
    && (forall j, k | 0 <= j < k < |boot| :: boot[j].ms <= boot[k].ms && boot[j].number < boot[k].number)
    && (forall k | 0 < k < |boot| :: boot[k].number < boot[k - 1].number + HALF)
  }

  predicate AllCarry(packets: seq<Packet>, boot: seq<Frame>) {
    |packets| == |boot| && forall k | 0 <= k < |boot| :: Carries(packets[k], boot[k])
  }

  /** The link after more packets. */
  function Received(l: Link, packets: seq<Packet>): Link {
    if packets == [] then l else Receive(Received(l, packets[..|packets| - 1]), packets[|packets| - 1], 0)
  }

  predicate AcceptedAt(l: Link, packets: seq<Packet>, k: nat)
    requires k < |packets|
  {
    Accepts(Received(l, packets[..k]), packets[k])
  }

  /** The frame tells of a restart after a boot last heard of at this frame. */
  predicate Restarts(last: Frame, f: Frame) { f.number < last.number && f.ms < 10000 && last.ms - f.ms > 1000 }

  /** The frame is let in after a boot last heard of at that one: as a restart, or because its number is ahead. */
  predicate LetIn(last: Frame, f: Frame) {
    Restarts(last, f) || 0 < f.number - last.number < HALF || last.number - f.number > HALF
  }

  ghost predicate SomeLetIn(last: Frame, boot: seq<Frame>, n: nat)
    requires n <= |boot|
  {
    exists j :: 0 <= j < n && LetIn(last, boot[j])
  }

  lemma FrameExactly(l: Link, last: Frame, p: Packet, f: Frame)
    requires l.hasPacket && Carries(l.packet, last) && Carries(p, f)
    requires last.ms < WRAP && last.number < WRAP && f.ms < WRAP && f.number < WRAP
    ensures Accepts(l, p) <==> LetIn(last, f)
    ensures Receive(l, p, 0).stats.reboots == Shown(l.stats.reboots + if Restarts(last, f) then 1 else 0)
  {
    hide Receive, Accepts, Shown;
    SmallIsShown(last.ms);
    SmallIsShown(last.number);
    SmallIsShown(f.ms);
    SmallIsShown(f.number);
    AcceptanceExactly(l, p, 0);
  }

  lemma AcceptedBefore(l: Link, packets: seq<Packet>, p: Packet, k: nat)
    requires k < |packets|
    ensures AcceptedAt(l, packets + [p], k) <==> AcceptedAt(l, packets, k)
  {
    hide Accepts, Received;
    assert (packets + [p])[..k] == packets[..k];
  }

  lemma ReceivedOneMore(l: Link, packets: seq<Packet>, p: Packet)
    ensures Received(l, packets + [p]) == Receive(Received(l, packets), p, 0)
  {
    hide Receive;
    assert (packets + [p])[..|packets|] == packets;
  }

  /** Until the first frame that is let in all are refused; from it on all are accepted. */
  lemma {:induction false} NewBootExactly(l: Link, last: Frame, packets: seq<Packet>, boot: seq<Frame>)
    requires l.hasPacket && Carries(l.packet, last) && last.ms < WRAP && last.number < WRAP
    requires IsBoot(boot) && AllCarry(packets, boot)
    ensures forall k | 0 <= k < |boot| :: AcceptedAt(l, packets, k) <==> SomeLetIn(last, boot, k + 1)
    ensures var r := Received(l, packets);
            && r.hasPacket
            && Carries(r.packet, if SomeLetIn(last, boot, |boot|) then boot[|boot| - 1] else last)
    decreases |packets|
  {
    hide Accepts, Receive, Carries, LetIn, Restarts, IsBoot;
    if packets != [] {
      var n := |packets| - 1;
      var init, p, earlier, f := packets[..n], packets[n], boot[..n], boot[n];
      BootBegins(boot, n);
      NewBootExactly(l, last, init, earlier);
      assert packets == init + [p] && packets[..n] == init;
      ReceivedOneMore(l, init, p);
      var mid := Received(l, init);
      var before := if SomeLetIn(last, earlier, n) then earlier[n - 1] else last;
      AcceptanceExactly(mid, p, 0);
      FrameExactly(mid, before, p, f);
      SomeLetInGrows(last, boot, n);
      if SomeLetIn(last, earlier, n) {
        NextIsLetIn(boot, n);
      }
      forall k | 0 <= k < n ensures AcceptedAt(l, packets, k) <==> SomeLetIn(last, boot, k + 1) {
        AcceptedBefore(l, init, p, k);
        SomeLetInPrefix(last, boot, n, k + 1);
      }
    }
  }

  lemma BootBegins(boot: seq<Frame>, n: nat)
    requires IsBoot(boot) && n < |boot|
    ensures IsBoot(boot[..n]) && boot[n].ms < WRAP && boot[n].number < WRAP
    ensures forall k | 0 <= k < n :: boot[k].ms < WRAP && boot[k].number < WRAP
  {
  }

  lemma NextIsLetIn(boot: seq<Frame>, n: nat)
    requires IsBoot(boot) && 0 < n < |boot|
    ensures LetIn(boot[n - 1], boot[n])
  {
  }

  lemma SomeLetInPrefix(last: Frame, boot: seq<Frame>, n: nat, m: nat)
    requires m <= n <= |boot|
    ensures SomeLetIn(last, boot[..n], m) <==> SomeLetIn(last, boot, m)
  {
    hide LetIn;
    assert forall j | 0 <= j < m :: boot[..n][j] == boot[j];
  }

  lemma SomeLetInGrows(last: Frame, boot: seq<Frame>, n: nat)
    requires n < |boot|
    ensures SomeLetIn(last, boot, n + 1) <==> SomeLetIn(last, boot[..n], n) || LetIn(last, boot[n])
  {
    hide LetIn;
    SomeLetInPrefix(last, boot, n, n);
  }

  /** A node that restarts after a boot that ran more than a second longer and sent more packets is let in with the
      first packet heard within ten seconds of power-up and heard of from then on; one restart is counted. */
  lemma {:induction false} RestartComesThrough(l: Link, last: Frame, packets: seq<Packet>, boot: seq<Frame>)
    requires l.hasPacket && Carries(l.packet, last) && last.ms < WRAP && last.number < WRAP
    requires IsBoot(boot) && AllCarry(packets, boot) && boot != []
    requires boot[0].ms < 10000 && boot[0].ms + 1000 < last.ms && boot[0].number < last.number
    ensures forall k | 0 <= k < |boot| :: AcceptedAt(l, packets, k)
    ensures Received(l, packets).stats.reboots == Shown(l.stats.reboots + 1)
    decreases |packets|
  {
    hide Accepts, Receive, Received, AcceptedAt, IsBoot;
    NewBootExactly(l, last, packets, boot);
    forall k | 0 <= k < |boot| ensures AcceptedAt(l, packets, k) {
      assert LetIn(last, boot[0]);
    }
    OneRestart(l, last, packets, boot);
  }

  lemma {:induction false} OneRestart(l: Link, last: Frame, packets: seq<Packet>, boot: seq<Frame>)
    requires l.hasPacket && Carries(l.packet, last) && last.ms < WRAP && last.number < WRAP
    requires IsBoot(boot) && AllCarry(packets, boot) && boot != [] && Restarts(last, boot[0])
    ensures Received(l, packets).stats.reboots == Shown(l.stats.reboots + 1)
    decreases |packets|
  {
    hide Accepts, Receive, Carries, LetIn, Restarts, IsBoot, SomeLetIn, Shown;
    var n := |packets| - 1;
    var init, p, earlier, f := packets[..n], packets[n], boot[..n], boot[n];
    BootBegins(boot, n);
    assert packets == init + [p];
    ReceivedOneMore(l, init, p);
    if n == 0 {
      FrameExactly(l, last, p, f);
    } else {
      OneRestart(l, last, init, earlier);
      NewBootExactly(l, last, init, earlier);
      assert SomeLetIn(last, earlier, n) by {
        FirstLetIn(last, earlier);
      }
      FrameExactly(Received(l, init), boot[n - 1], p, f);
      NoSecondRestart(boot, n);
      ShownSum(l.stats.reboots + 1, 0);
    }
  }

  lemma FirstLetIn(last: Frame, boot: seq<Frame>)
    requires boot != [] && Restarts(last, boot[0])
    ensures SomeLetIn(last, boot, |boot|)
  {
    assert LetIn(last, boot[0]);
  }

  lemma NoSecondRestart(boot: seq<Frame>, n: nat)
    requires IsBoot(boot) && 0 < n < |boot|
    ensures !Restarts(boot[n - 1], boot[n])
  {
  }
}
