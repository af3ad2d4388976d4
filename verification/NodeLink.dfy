/** The receiving end of a sensor node's link: which packets it accepts and what it counts. */
module NodeLink {
  import opened Clock

  // Milliseconds after a restart within which a node's own clock must still be.
  const RESET_WINDOW_MS := 10000
  // How long a packet counts as fresh.
  const STALE_MS := 500

  const SCANNER_BIT: bv8 := 1
  const FIXED_BIT: bv8 := 2
  const SERVO_BIT: bv8 := 8

  /** What a well-formed line of the node carries. */
  datatype Packet = Packet(
    sequence: U32, nodeMs: U32, angle: int, scanMm: int, scanMs: U32,
    fixedMm: int, fixedMs: U32, health: bv8)
  {
    predicate ScannerHealthy() { health & SCANNER_BIT != 0 && health & SERVO_BIT != 0 }

    predicate FixedHealthy() { health & FIXED_BIT != 0 }
  }

  const NO_PACKET := Packet(0, 0, 0, -1, 0, -1, 0, 0)

  datatype Stats = Stats(accepted: U32, dropped: U32, outOfOrder: U32, reboots: U32)

  datatype Link = Link(packet: Packet, receivedMs: U32, hasPacket: bool, stats: Stats)

  const INITIAL := Link(NO_PACKET, 0, false, Stats(0, 0, 0, 0))

  /** A counter of 32 bits going up. */
  function Plus(counter: U32, n: nat): U32 { Shown(counter + n) }

  predicate ProbableReboot(last: Packet, p: Packet) {
    && p.sequence < last.sequence && p.nodeMs < last.nodeMs
    && p.nodeMs < RESET_WINDOW_MS && ElapsedMs(last.nodeMs, p.nodeMs) > 1000
  }

  /** How far the sequence advances, modulo 2^32. */
  function Advance(last: Packet, p: Packet): U32 { ElapsedMs(p.sequence, last.sequence) }

  predicate IsNewer(last: Packet, p: Packet) { 0 < Advance(last, p) < HALF }

  predicate Accepts(l: Link, p: Packet) {
    !l.hasPacket || ProbableReboot(l.packet, p) || IsNewer(l.packet, p)
  }

  function AfterSequence(l: Link, p: Packet): Stats {
    if !l.hasPacket then l.stats
    else if ProbableReboot(l.packet, p) then l.stats.(reboots := Plus(l.stats.reboots, 1))
    else if !IsNewer(l.packet, p) then l.stats.(outOfOrder := Plus(l.stats.outOfOrder, 1))
    else if Advance(l.packet, p) > 1 then l.stats.(dropped := Plus(l.stats.dropped, Advance(l.packet, p) - 1))
    else l.stats
  }

  function Receive(l: Link, p: Packet, now: U32): Link {
    var stats := AfterSequence(l, p);
    if !Accepts(l, p) then l.(stats := stats)
    else Link(p, now, true, stats.(accepted := Plus(stats.accepted, 1)))
  }

  function AgeMs(l: Link, now: U32): U32 { if l.hasPacket then ElapsedMs(now, l.receivedMs) else WRAP - 1 }

  predicate IsFresh(l: Link, now: U32) { l.hasPacket && AgeMs(l, now) <= STALE_MS }

  class Node {
    var packet: Packet
    var receivedMs: U32
    var hasPacket: bool
    var stats: Stats

    constructor ()
      ensures Value() == INITIAL
    {
      packet, receivedMs, hasPacket, stats := NO_PACKET, 0, false, Stats(0, 0, 0, 0);
    }

    function Value(): Link
      reads this
    {
      Link(packet, receivedMs, hasPacket, stats)
    }

    method AcceptSequence(p: Packet) returns (ok: bool)
      modifies this`stats
      ensures stats == AfterSequence(old(Value()), p) && ok == Accepts(old(Value()), p)
    {
      if !hasPacket {
        return true;
      }
      if ProbableReboot(packet, p) {
        stats := stats.(reboots := Plus(stats.reboots, 1));
        return true;
      }
      var delta := ElapsedMs(p.sequence, packet.sequence);
      if delta == 0 || delta >= HALF {
        stats := stats.(outOfOrder := Plus(stats.outOfOrder, 1));
        return false;
      }
      if delta > 1 {
        stats := stats.(dropped := Plus(stats.dropped, delta - 1));
      }
      ok := true;
    }

    /** The part of a line's handling after it has been parsed. */
    method HandlePacket(p: Packet, now: U32) returns (ok: bool)
      modifies this
      ensures Value() == Receive(old(Value()), p, now) && ok == Accepts(old(Value()), p)
    {
      ok := AcceptSequence(p);
      if !ok {
        return;
      }
      packet, receivedMs, hasPacket := p, now, true;
      stats := stats.(accepted := Plus(stats.accepted, 1));
    }
  }

  // ---------------------------------------------------------------------------
  // Accounting
  // ---------------------------------------------------------------------------

  /** One boot of the node as the link saw it: the first and the last sequence number accepted. */
  datatype Boot = Boot(first: U32, last: U32)

  function LinkAfter(packets: seq<Packet>): Link {
    if packets == [] then INITIAL
    else Receive(LinkAfter(packets[..|packets| - 1]), packets[|packets| - 1], 0)
  }

  /** The boots, oldest first, read off the packets that were accepted. */
  function Boots(packets: seq<Packet>): (r: seq<Boot>)
    ensures LinkAfter(packets).hasPacket <==> r != []
    ensures r != [] ==> r[|r| - 1].last == LinkAfter(packets).packet.sequence
  {
    if packets == [] then []
    else
      var init, p := packets[..|packets| - 1], packets[|packets| - 1];
      var l, before := LinkAfter(init), Boots(init);
      if !Accepts(l, p) then before
      else if before == [] || ProbableReboot(l.packet, p) then before + [Boot(p.sequence, p.sequence)]
      else before[|before| - 1 := Boot(before[|before| - 1].first, p.sequence)]
  }

  /** The sequence numbers the boots span: the advance of each, plus one. */
  function Span(boots: seq<Boot>): int {
    if boots == [] then 0
    else Span(boots[..|boots| - 1]) + (boots[|boots| - 1].last - boots[|boots| - 1].first) + 1
  }

  predicate Congruent(a: int, b: int) { Shown(a) == Shown(b) }

  lemma CongruentByWraps(a: int, b: int, k: int)
    requires a == b + k * WRAP
    ensures Congruent(a, b)
  {
    ModuloAddsWraps(b, k);
  }

  lemma CongruentWraps(a: int, b: int) returns (k: int)
    requires Congruent(a, b)
    ensures a == b + k * WRAP
  {
    k := a / WRAP - b / WRAP;
    assert a == a / WRAP * WRAP + a % WRAP && b == b / WRAP * WRAP + b % WRAP;
  }

  lemma CongruentSum(a: int, b: int, c: int, d: int)
    requires Congruent(a, b) && Congruent(c, d)
    ensures Congruent(a + c, b + d)
  {
    var k := CongruentWraps(a, b);
    var m := CongruentWraps(c, d);
    CongruentByWraps(a + c, b + d, k + m);
  }

  lemma SpanOfLast(boots: seq<Boot>, b: Boot)
    ensures Span(boots + [b]) == Span(boots) + (b.last - b.first) + 1
    ensures boots != [] ==>
              Span(boots[|boots| - 1 := b]) == Span(boots) - (boots[|boots| - 1].last - boots[|boots| - 1].first) + (b.last - b.first)
  {
    assert (boots + [b])[..|boots|] == boots;
    if boots != [] {
      var changed := boots[|boots| - 1 := b];
      assert changed[..|boots| - 1] == boots[..|boots| - 1];
    }
  }

  /** One accepted packet adds its sequence advance to accepted plus dropped, or one if it begins a boot. */
  lemma CountingStep(l: Link, p: Packet)
    requires Accepts(l, p)
    ensures var r := Receive(l, p, 0);
            Congruent(r.stats.accepted + r.stats.dropped,
                      l.stats.accepted + l.stats.dropped
                      + if !l.hasPacket || ProbableReboot(l.packet, p) then 1 else p.sequence - l.packet.sequence)
  {
    hide ProbableReboot, IsNewer;
    var r := Receive(l, p, 0);
    var gain := if !l.hasPacket || ProbableReboot(l.packet, p) then 0 else Advance(l.packet, p) - 1;
    if l.hasPacket && !ProbableReboot(l.packet, p) {
      AdvancesPositively(l, p);
    }
    ShownTwice(l.stats.accepted + 1);
    ShownTwice(l.stats.dropped + gain);
    assert Congruent(r.stats.accepted, l.stats.accepted + 1);
    assert Congruent(r.stats.dropped, l.stats.dropped + gain);
    CongruentSum(r.stats.accepted, l.stats.accepted + 1, r.stats.dropped, l.stats.dropped + gain);
    if gain != 0 || (l.hasPacket && !ProbableReboot(l.packet, p)) {
      ShownTwice(p.sequence - l.packet.sequence);
      CongruentSum(Advance(l.packet, p), p.sequence - l.packet.sequence,
                   l.stats.accepted + l.stats.dropped, l.stats.accepted + l.stats.dropped);
    }
  }

  lemma ShownTwice(x: int)
    ensures Congruent(Shown(x), x)
  {
  }

  lemma AdvancesPositively(l: Link, p: Packet)
    requires Accepts(l, p) && l.hasPacket && !ProbableReboot(l.packet, p)
    ensures Advance(l.packet, p) >= 1
  {
  }

  /** Accepted plus dropped packets are the sequence numbers spanned by all boots, modulo 2^32. */
  lemma {:induction false} AcceptedPlusDropped(packets: seq<Packet>)
    ensures var l := LinkAfter(packets); Congruent(l.stats.accepted + l.stats.dropped, Span(Boots(packets)))
  {
    hide ProbableReboot, Receive, Congruent, Span;
    if packets == [] {
      NothingSpanned();
    } else {
      var init, p := packets[..|packets| - 1], packets[|packets| - 1];
      var l, before := LinkAfter(init), Boots(init);
      AcceptedPlusDropped(init);
      var gain := if !l.hasPacket || ProbableReboot(l.packet, p) then 1 else p.sequence - l.packet.sequence;
      if Accepts(l, p) {
        CountingStep(l, p);
        SpanOfLast(before, Boot(p.sequence, p.sequence));
        if before != [] {
          SpanOfLast(before, Boot(before[|before| - 1].first, p.sequence));
        }
        CongruentSum(l.stats.accepted + l.stats.dropped, Span(before), gain, gain) by { SameIsCongruent(gain); }
        CongruentChain(LinkAfter(packets).stats.accepted + LinkAfter(packets).stats.dropped,
                       l.stats.accepted + l.stats.dropped + gain, Span(before) + gain);
      } else {
        RefusalCountsNothing(l, p);
      }
    }
  }

  lemma NothingSpanned()
    ensures Congruent(INITIAL.stats.accepted + INITIAL.stats.dropped, Span([]))
  {
  }

  lemma SameIsCongruent(a: int)
    ensures Congruent(a, a)
  {
  }

  lemma CongruentChain(a: int, b: int, c: int)
    requires Congruent(a, b) && Congruent(b, c)
    ensures Congruent(a, c)
  {
  }

  lemma RefusalCountsNothing(l: Link, p: Packet)
    requires !Accepts(l, p)
    ensures var r := Receive(l, p, 0); r.stats.accepted == l.stats.accepted && r.stats.dropped == l.stats.dropped
    ensures Receive(l, p, 0).stats.outOfOrder == Plus(l.stats.outOfOrder, 1)
  {
  }
}
