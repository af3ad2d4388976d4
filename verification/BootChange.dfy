/** Across a restart of the controller: what a late frame of the previous boot, arriving over the slower
    link, does to the frames of the new one. */
module BootChange {
  import opened Clock
  import opened Options
  import opened StreamDedup

  /** Both counters are sent and have not come halfway round. */
  predicate Unwrapped(p: Packet) { p.ms < HALF && p.sequence.Some? && p.sequence.value < HALF }

  /** Later in both counters. */
  predicate Past(a: Packet, b: Packet) {
    && b.ms > a.ms
    && a.sequence.Some? && b.sequence.Some? && b.sequence.value > a.sequence.value
  }

  /** Too far into its boot to be taken for its beginning. */
  predicate UnderWay(p: Packet) { p.sequence.Some? && p.sequence.value > RESTART_SEQUENCE }

  lemma NewerIsPast(a: Packet, b: Packet)
    requires Unwrapped(a) && Unwrapped(b)
    ensures Newer(a, b) <==> Past(a, b)
  {
    hide CounterAdvanced;
    CounterIsTrue(b.ms, a.ms);
    CounterIsTrue(b.sequence.value, a.sequence.value);
  }

  /** A frame under way is accepted exactly when it is past the last one accepted, whichever boot that was of. */
  lemma UnderWayExactly(last: Packet, p: Packet, staleMs: int)
    requires Unwrapped(last) && Unwrapped(p) && UnderWay(p)
    ensures Accepts(Gate(Some(last)), p, staleMs) <==> Past(last, p)
  {
    hide Newer;
    NewerIsPast(last, p);
  }

  /** A counter of 32 bits went up by less than half its range, counted through the wrap. */
  predicate WentUp(from: nat, to: nat) { from < to < from + HALF || to + HALF < from }

  /** Which packet is accepted after which, and which of these is taken for a restart of the controller: with numbers
      one of the first five with a lower number and an earlier time, without them one more than a second earlier and
      by more than a packet takes to go stale. */
  lemma AcceptedAfterExactly(last: Packet, p: Packet, staleMs: int)
    requires last.ms < WRAP && p.ms < WRAP
    requires last.sequence.Some? ==> last.sequence.value < WRAP
    requires p.sequence.Some? ==> p.sequence.value < WRAP
    ensures var numbered := last.sequence.Some? && p.sequence.Some?;
            var restart := if numbered then p.ms < last.ms && p.sequence.value < last.sequence.value && p.sequence.value <= 5
                           else last.ms > p.ms + 1000 && last.ms > p.ms + staleMs;
            && (LooksRestarted(last, p, staleMs) <==> restart)
            && (Accepts(Gate(Some(last)), p, staleMs) <==>
                  restart || (WentUp(last.ms, p.ms) && (numbered ==> WentUp(last.sequence.value, p.sequence.value))))
  {
    hide CounterAdvanced, WentUp;
    AdvancedExactly(p.ms, last.ms);
    if last.sequence.Some? && p.sequence.Some? {
      AdvancedExactly(p.sequence.value, last.sequence.value);
    }
  }

  lemma AdvancedExactly(to: nat, from: nat)
    requires to < WRAP && from < WRAP
    ensures CounterAdvanced(to, from) <==> WentUp(from, to)
  {
    if to < from {
      ModuloAddsWraps(to - from, 1);
    }
  }

  /** The first frames of a new boot are accepted as long as both counters fell back. */
  lemma RestartIsTaken(last: Packet, first: Packet, staleMs: int)
    requires Unwrapped(last) && Unwrapped(first) && !UnderWay(first) && Past(first, last)
    ensures Accepts(Gate(Some(last)), first, staleMs)
  {
  }

  lemma RunGateStep(packets: seq<Packet>, p: Packet, staleMs: int)
    ensures RunGate(packets + [p], staleMs) == Next(RunGate(packets, staleMs), p, staleMs)
  {
    assert (packets + [p])[..|packets|] == packets;
  }

  lemma PastIsTaken(last: Packet, p: Packet, staleMs: int)
    requires Unwrapped(last) && Unwrapped(p) && Past(last, p)
    ensures Accepts(Gate(Some(last)), p, staleMs)
  {
    hide Newer;
    NewerIsPast(last, p);
  }

  /** Each packet is past all before it. */
  predicate Ascending(packets: seq<Packet>) {
    && (forall k | 0 <= k < |packets| :: Unwrapped(packets[k]))
    && (forall j, k | 0 <= j < k < |packets| :: Past(packets[j], packets[k]))
  }

  lemma AcceptedLater(all: seq<Packet>, p: Packet, n: nat, staleMs: int)
    requires n < |all|
    ensures AcceptedAt(all + [p], n, staleMs) <==> AcceptedAt(all, n, staleMs)
  {
    hide Accepts, RunGate;
    assert (all + [p])[..n] == all[..n];
  }

  /** Frames in order and under way after a late one: each is accepted exactly when it is past the late one, so all
      are from the first of them on that is. */
  lemma {:induction false} ResumesExactly(before: seq<Packet>, late: Packet, packets: seq<Packet>, staleMs: int)
    requires RunGate(before, staleMs) == Gate(Some(late)) && Unwrapped(late)
    requires Ascending(packets) && forall k | 0 <= k < |packets| :: UnderWay(packets[k])
    ensures forall k | 0 <= k < |packets| :: AcceptedAt(before + packets, |before| + k, staleMs) <==> Past(late, packets[k])
    ensures RunGate(before + packets, staleMs)
         == Gate(Some(if packets != [] && Past(late, packets[|packets| - 1]) then packets[|packets| - 1] else late))
    decreases |packets|
  {
    hide Accepts, UnderWay, RunGate;
    if packets == [] {
      assert before + packets == before;
    } else {
      var init, p := packets[..|packets| - 1], packets[|packets| - 1];
      var all := before + init;
      assert before + packets == all + [p] && (all + [p])[..|all|] == all;
      ResumesExactly(before, late, init, staleMs);
      RunGateStep(all, p, staleMs);
      UnderWayExactly(if init != [] && Past(late, init[|init| - 1]) then init[|init| - 1] else late, p, staleMs);
      forall k | 0 <= k < |init| ensures AcceptedAt(before + packets, |before| + k, staleMs) <==> Past(late, packets[k]) {
        AcceptedLater(all, p, |before| + k, staleMs);
      }
    }
  }

  /** A restart is recognised at a first frame. A frame of the old boot that the slower link delivers after it
      is accepted again, and from then on a frame of the new boot that is under way is accepted exactly when both
      its counters are past those of the late frame. */
  lemma LateFrameShutsOutNewBoot(
    before: seq<Packet>, last: Packet, first: Packet, late: Packet, packets: seq<Packet>, staleMs: int)
    requires RunGate(before, staleMs) == Gate(Some(last))
    requires Unwrapped(last) && Unwrapped(first) && Unwrapped(late)
    requires !UnderWay(first) && Past(first, last) && Past(first, late)
    requires Ascending([first] + packets) && forall k | 0 <= k < |packets| :: UnderWay(packets[k])
    ensures var start := before + [first] + [late];
            && AcceptedAt(start, |before|, staleMs) && AcceptedAt(start, |before| + 1, staleMs)
            && (forall k | 0 <= k < |packets| :: AcceptedAt(start + packets, |start| + k, staleMs) <==> Past(late, packets[k]))
            && RunGate(start + packets, staleMs)
            == Gate(Some(if packets != [] && Past(late, packets[|packets| - 1]) then packets[|packets| - 1] else late))
  {
    hide Accepts, Past, UnderWay, RunGate, Ascending;
    RestartIsTaken(last, first, staleMs);
    RunGateStep(before, first, staleMs);
    PastIsTaken(first, late, staleMs);
    RunGateStep(before + [first], late, staleMs);
    AscendingRest(first, packets);
    var start := before + [first] + [late];
    ResumesExactly(start, late, packets, staleMs);
    AcceptedLast(before, first, staleMs);
    AcceptedLast(before + [first], late, staleMs);
    AcceptedLater(before + [first], late, |before|, staleMs);
  }

  lemma AscendingRest(first: Packet, packets: seq<Packet>)
    requires Ascending([first] + packets)
    ensures Ascending(packets)
  {
    hide Past;
    assert packets == ([first] + packets)[1..];
  }

  lemma AcceptedLast(before: seq<Packet>, p: Packet, staleMs: int)
    ensures AcceptedAt(before + [p], |before|, staleMs) <==> Accepts(RunGate(before, staleMs), p, staleMs)
  {
    hide Accepts, RunGate;
    assert (before + [p])[..|before|] == before;
  }

  /** Such a run: frames 500 and 499 of the old boot arrive around frame 3 of the new one, whose frame 6 is then
      rejected; its frame 900 is the next accepted. */
  lemma LateFrameCosts()
    ensures var f := (ms, n) => Packet(ms, Some(n));
            var all := [f(100000, 500), f(300, 3), f(99800, 499), f(600, 6), f(180000, 900)];
            forall k | 0 <= k < |all| :: AcceptedAt(all, k, 2000) <==> k != 3
  {
    hide Accepts, RunGate;
    var f := (ms, n) => Packet(ms, Some(n));
    var last, first, late, packets := f(100000, 500), f(300, 3), f(99800, 499), [f(600, 6), f(180000, 900)];
    OneAccepted(last, 2000);
    LateFrameShutsOutNewBoot([last], last, first, late, packets, 2000);
    var start := [last] + [first] + [late];
    var all := [last, first, late, packets[0], packets[1]];
    assert all == start + packets && start == [last, first, late];
    forall k: nat | k < |all| ensures AcceptedAt(all, k, 2000) <==> k != 3 {
      if k > 2 {
        assert AcceptedAt(start + packets, |start| + (k - 3), 2000) <==> Past(late, packets[k - 3]);
      } else {
        assert all[..k] == start[..k] && start[..0] == [last][..0];
      }
    }
  }

  lemma OneAccepted(p: Packet, staleMs: int)
    ensures RunGate([p], staleMs) == Gate(Some(p)) && AcceptedAt([p], 0, staleMs)
  {
    assert [p][..0] == [];
  }

  /** Without a late frame the new boot is accepted like any other: every frame in order after its first one is. */
  lemma {:induction false} NewBootComesThrough(before: seq<Packet>, first: Packet, packets: seq<Packet>, staleMs: int)
    requires RunGate(before, staleMs) == Gate(Some(first)) && Ascending([first] + packets)
    ensures RunGate(before + packets, staleMs) == Gate(Some(([first] + packets)[|packets|]))
    ensures forall n | |before| <= n < |before + packets| :: AcceptedAt(before + packets, n, staleMs)
    decreases |packets|
  {
    hide Accepts, Past, RunGate;
    var chain := [first] + packets;
    if packets == [] {
      assert before + packets == before;
    } else {
      var init, p := packets[..|packets| - 1], packets[|packets| - 1];
      assert before + packets == (before + init) + [p];
      assert [first] + init == chain[..|packets|] && chain[|packets|] == p;
      NewBootComesThrough(before, first, init, staleMs);
      RunGateStep(before + init, p, staleMs);
      PastIsTaken(chain[|init|], p, staleMs);
      forall n | |before| <= n < |before + packets| ensures AcceptedAt(before + packets, n, staleMs) {
        if n < |before + init| {
          assert AcceptedAt(before + init, n, staleMs);
          assert (before + packets)[..n] == (before + init)[..n];
        } else {
          assert (before + packets)[..n] == before + init;
        }
      }
    }
  }

  // ---------------------------------------------------------------------------
  // Any number of late frames
  // ---------------------------------------------------------------------------

  /** A packet that arrives after the restart, of the new boot or of the old one. */
  datatype Arrival = Arrival(packet: Packet, isNew: bool)

  function Packets(arrivals: seq<Arrival>): (packets: seq<Packet>)
    ensures |packets| == |arrivals|
  {
    seq(|arrivals|, k requires 0 <= k < |arrivals| => arrivals[k].packet)
  }

  /** After the first frame: frames of the new boot in order, between them late ones of the old boot in any order,
      all of them under way. */
  predicate Interleaved(first: Packet, arrivals: seq<Arrival>) {
    && Unwrapped(first)
    && (forall k | 0 <= k < |arrivals| :: Unwrapped(arrivals[k].packet) && UnderWay(arrivals[k].packet))
    && (forall k | 0 <= k < |arrivals| && arrivals[k].isNew :: Past(first, arrivals[k].packet))
    && (forall j, k | 0 <= j < k < |arrivals| && arrivals[j].isNew && arrivals[k].isNew ::
          Past(arrivals[j].packet, arrivals[k].packet))
    && (forall j, k | 0 <= j < k < |arrivals| && !arrivals[j].isNew && !arrivals[k].isNew ::
          InOneBoot(arrivals[j].packet, arrivals[k].packet))
  }

  predicate InOneBoot(a: Packet, b: Packet) { a == b || Past(a, b) || Past(b, a) }

  /** The late frame shows more in both counters than all of the new boot before it. */
  predicate RunsAhead(first: Packet, arrivals: seq<Arrival>, j: nat)
    requires j < |arrivals|
  {
    && !arrivals[j].isNew && Past(first, arrivals[j].packet)
    && forall i | 0 <= i < j && arrivals[i].isNew :: Past(arrivals[i].packet, arrivals[j].packet)
  }

  /** New frame k is past every late frame that ran ahead before it. */
  predicate CatchesUp(first: Packet, arrivals: seq<Arrival>, k: nat)
    requires k < |arrivals|
  {
    forall j: nat | j < k && RunsAhead(first, arrivals, j) :: Past(arrivals[j].packet, arrivals[k].packet)
  }

  /** After k arrivals g is the newest of those that count: the new ones and the late ones that ran ahead. */
  predicate Leads(first: Packet, arrivals: seq<Arrival>, k: nat, g: Packet)
    requires k <= |arrivals|
  {
    && (g == first || exists i: nat ::
          i < k && g == arrivals[i].packet && (arrivals[i].isNew || RunsAhead(first, arrivals, i)))
    && (g == first || Past(first, g))
    && forall i: nat | i < k && (arrivals[i].isNew || RunsAhead(first, arrivals, i)) ::
         g == arrivals[i].packet || Past(arrivals[i].packet, g)
  }

  lemma LeaderStep(first: Packet, arrivals: seq<Arrival>, k: nat, g: Packet)
    requires Interleaved(first, arrivals) && k < |arrivals| && Leads(first, arrivals, k, g)
    ensures Unwrapped(g)
    ensures arrivals[k].isNew ==> (Past(g, arrivals[k].packet) <==> CatchesUp(first, arrivals, k))
    ensures arrivals[k].isNew && CatchesUp(first, arrivals, k) ==> Leads(first, arrivals, k + 1, arrivals[k].packet)
    ensures !arrivals[k].isNew ==>
              Leads(first, arrivals, k + 1, if Past(g, arrivals[k].packet) then arrivals[k].packet else g)
  {
  }

  /** As long as every new frame catches up, all of them have been accepted and the gate holds the newest that counts. */
  lemma {:induction false} GateLeads(before: seq<Packet>, first: Packet, arrivals: seq<Arrival>, k: nat, staleMs: int)
    returns (g: Packet)
    requires Interleaved(first, arrivals) && RunGate(before, staleMs) == Gate(Some(first)) && k <= |arrivals|
    requires forall i: nat | i < k && arrivals[i].isNew :: CatchesUp(first, arrivals, i)
    ensures Leads(first, arrivals, k, g) && RunGate(before + Packets(arrivals)[..k], staleMs) == Gate(Some(g))
    decreases k
  {
    hide Accepts, Past, UnderWay, RunGate, RunsAhead, CatchesUp, Interleaved, Leads;
    var packets := Packets(arrivals);
    if k == 0 {
      assert before + packets[..0] == before;
      g := first;
      LeadsAtFirst(first, arrivals);
    } else {
      g := GateLeads(before, first, arrivals, k - 1, staleMs);
      var p := arrivals[k - 1].packet;
      assert before + packets[..k] == before + packets[..k - 1] + [p];
      RunGateStep(before + packets[..k - 1], p, staleMs);
      LeaderStep(first, arrivals, k - 1, g);
      ArrivalIsUnderWay(first, arrivals, k - 1);
      UnderWayExactly(g, p, staleMs);
      if Past(g, p) {
        g := p;
      }
    }
  }

  lemma LeadsAtFirst(first: Packet, arrivals: seq<Arrival>)
    ensures Leads(first, arrivals, 0, first)
  {
  }

  lemma ArrivalIsUnderWay(first: Packet, arrivals: seq<Arrival>, k: nat)
    requires Interleaved(first, arrivals) && k < |arrivals|
    ensures Unwrapped(arrivals[k].packet) && UnderWay(arrivals[k].packet)
  {
  }

  /** The first new frame that does not catch up is rejected. */
  lemma CaughtUpExactly(before: seq<Packet>, first: Packet, arrivals: seq<Arrival>, k: nat, staleMs: int)
    requires Interleaved(first, arrivals) && RunGate(before, staleMs) == Gate(Some(first))
    requires k < |arrivals| && arrivals[k].isNew
    requires forall i: nat | i < k && arrivals[i].isNew :: CatchesUp(first, arrivals, i)
    ensures AcceptedAt(before + Packets(arrivals), |before| + k, staleMs) <==> CatchesUp(first, arrivals, k)
  {
    hide Accepts, Past, UnderWay, RunGate, RunsAhead, CatchesUp, Interleaved, Leads;
    var g := GateLeads(before, first, arrivals, k, staleMs);
    var packets := Packets(arrivals);
    assert (before + packets)[..|before| + k] == before + packets[..k];
    LeaderStep(first, arrivals, k, g);
    ArrivalIsUnderWay(first, arrivals, k);
    UnderWayExactly(g, arrivals[k].packet, staleMs);
  }

  /** With late frames of the old boot anywhere between them, no frame of the new boot is lost if and only if each of
      them is past every late frame before it that ran ahead of the new boot when it arrived. */
  lemma NewBootLosesNothingExactly(before: seq<Packet>, first: Packet, arrivals: seq<Arrival>, staleMs: int)
    requires Interleaved(first, arrivals) && RunGate(before, staleMs) == Gate(Some(first))
    ensures (forall k: nat | k < |arrivals| && arrivals[k].isNew ::
               AcceptedAt(before + Packets(arrivals), |before| + k, staleMs))
       <==> (forall k: nat | k < |arrivals| && arrivals[k].isNew :: CatchesUp(first, arrivals, k))
  {
    hide AcceptedAt, CatchesUp, Interleaved;
    var k: nat := 0;
    while k < |arrivals| && (arrivals[k].isNew ==> CatchesUp(first, arrivals, k))
      invariant k <= |arrivals|
      invariant forall i: nat | i < k && arrivals[i].isNew :: CatchesUp(first, arrivals, i)
      invariant forall i: nat | i < k && arrivals[i].isNew ::
        AcceptedAt(before + Packets(arrivals), |before| + i, staleMs)
    {
      if arrivals[k].isNew {
        CaughtUpExactly(before, first, arrivals, k, staleMs);
      }
      k := k + 1;
    }
    if k < |arrivals| {
      CaughtUpExactly(before, first, arrivals, k, staleMs);
    }
  }
}
