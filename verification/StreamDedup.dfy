/** Accepting telemetry packets that arrive over two links: the serial comparison of
    section 3.2 of RFC 1982 with 32 bits, and a rule that recognises a controller restart. */
module StreamDedup {
  import opened Clock
  import opened Options

  /** The two counters of a packet as they stand on the wire; older firmware sends no sequence. */
  datatype Packet = Packet(ms: nat, sequence: Option<nat>)

  const RESTART_SEQUENCE := 5
  const MIN_ROLLBACK_MS := 1000

  // ---------------------------------------------------------------------------
  // The gate
  // ---------------------------------------------------------------------------

  predicate CounterAdvanced(current: nat, previous: nat) { 0 < (current - previous) % WRAP < HALF }

  /** The packet last accepted, if any. */
  datatype Gate = Gate(last: Option<Packet>)

  function Max(a: int, b: int): int { if a < b then b else a }

  predicate SequenceAdvanced(last: Packet, packet: Packet) {
    last.sequence.Some? && packet.sequence.Some? ==> CounterAdvanced(packet.sequence.value, last.sequence.value)
  }

  predicate LooksRestarted(last: Packet, packet: Packet, staleMs: int) {
    && packet.ms < last.ms
    && (if last.sequence.Some? && packet.sequence.Some?
        then packet.sequence.value <= RESTART_SEQUENCE && packet.sequence.value < last.sequence.value
        else last.ms - packet.ms > Max(MIN_ROLLBACK_MS, staleMs))
  }

  predicate Newer(last: Packet, packet: Packet) {
    CounterAdvanced(packet.ms, last.ms) && SequenceAdvanced(last, packet)
  }

  predicate Accepts(gate: Gate, packet: Packet, staleMs: int) {
    gate.last.Some? ==> Newer(gate.last.value, packet) || LooksRestarted(gate.last.value, packet, staleMs)
  }

  function Next(gate: Gate, packet: Packet, staleMs: int): Gate {
    if Accepts(gate, packet, staleMs) then Gate(Some(packet)) else gate
  }

  /** The part of the live runtime that decides acceptance. */
  class LiveRuntime {
    const staleTimeoutMs: int
    var lastControllerMs: Option<nat>
    var lastPacketSequence: Option<nat>
    var lastWheelDistances: Option<(real, real)>
    var occupancy: set<(int, int)>

    constructor (staleTimeoutMs: int)
      ensures State() == Gate(None) && this.staleTimeoutMs == staleTimeoutMs
    {
      this.staleTimeoutMs := staleTimeoutMs;
      lastControllerMs, lastPacketSequence, lastWheelDistances, occupancy := None, None, None, {};
    }

    function State(): Gate
      reads this
    {
      Gate(if lastControllerMs.None? then None else Some(Packet(lastControllerMs.value, lastPacketSequence)))
    }

    /** Only a packet taken for a restart discards what the previous run of the controller established. */
    method AcceptPacket(packet: Packet) returns (ok: bool)
      modifies this
      ensures ok == Accepts(old(State()), packet, staleTimeoutMs)
      ensures State() == Next(old(State()), packet, staleTimeoutMs)
      ensures var last := old(State()).last;
              if last.Some? && LooksRestarted(last.value, packet, staleTimeoutMs)
              then lastWheelDistances == None && occupancy == {}
              else lastWheelDistances == old(lastWheelDistances) && occupancy == old(occupancy)
    {
      hide CounterAdvanced;
      if lastControllerMs.None? {
        lastControllerMs := Some(packet.ms);
        lastPacketSequence := packet.sequence;
        return true;
      }
      var controllerAdvanced := CounterAdvanced(packet.ms, lastControllerMs.value);
      var sequenceAdvanced := true;
      if packet.sequence.Some? && lastPacketSequence.Some? {
        sequenceAdvanced := CounterAdvanced(packet.sequence.value, lastPacketSequence.value);
      }
      var controllerRolledBack := packet.ms < lastControllerMs.value;
      var controllerReset;
      if packet.sequence.Some? && lastPacketSequence.Some? {
        controllerReset := controllerRolledBack
                           && packet.sequence.value <= RESTART_SEQUENCE
                           && packet.sequence.value < lastPacketSequence.value;
      } else {
        controllerReset := controllerRolledBack
                           && lastControllerMs.value - packet.ms > Max(MIN_ROLLBACK_MS, staleTimeoutMs);
      }
      if !controllerReset && !(controllerAdvanced && sequenceAdvanced) {
        return false;
      }
      if controllerReset {
        lastWheelDistances := None;
        occupancy := {};
      }
      lastControllerMs := Some(packet.ms);
      lastPacketSequence := packet.sequence;
      ok := true;
    }
  }

  // ---------------------------------------------------------------------------
  // One run of the controller
  // ---------------------------------------------------------------------------

  /** A frame by its true, unbounded counters. */
  datatype Frame = Frame(time: nat, number: nat)

  /** Frames of one boot: both counters strictly increase and span less than half a wrap. */
  predicate IsBoot(boot: seq<Frame>) {
    && (forall i, j | 0 <= i < j < |boot| :: boot[i].time < boot[j].time && boot[i].number < boot[j].number)
    && (forall i, j | 0 <= i < j < |boot| :: boot[j].time - boot[i].time < HALF && boot[j].number - boot[i].number < HALF)
  }

  function OnWire(frame: Frame, numbered: bool): Packet {
    Packet(Shown(frame.time), if numbered then Some(Shown(frame.number)) else None)
  }

  lemma CounterIsTrue(a: int, b: int)
    requires -HALF < a - b < HALF
    ensures CounterAdvanced(Shown(a), Shown(b)) <==> a > b
  {
    ElapsedIsModular(a, b);
    if a < b {
      ModuloAddsWraps(a - b, 1);
    }
  }

  /** Within a boot the comparison tells which frame is the later one. */
  lemma NewerIsLater(boot: seq<Frame>, numbered: bool, i: nat, j: nat)
    requires IsBoot(boot) && i < |boot| && j < |boot|
    ensures Newer(OnWire(boot[i], numbered), OnWire(boot[j], numbered)) <==> j > i
  {
    hide CounterAdvanced;
    CounterIsTrue(boot[j].time, boot[i].time);
    CounterIsTrue(boot[j].number, boot[i].number);
  }

  // ---------------------------------------------------------------------------
  // Whole runs
  // ---------------------------------------------------------------------------

  function RunGate(packets: seq<Packet>, staleMs: int): Gate {
    if packets == [] then Gate(None)
    else Next(RunGate(packets[..|packets| - 1], staleMs), packets[|packets| - 1], staleMs)
  }

  predicate AcceptedAt(packets: seq<Packet>, k: nat, staleMs: int)
    requires k < |packets|
  {
    Accepts(RunGate(packets[..k], staleMs), packets[k], staleMs)
  }

  /** Which frame of the boot arrived when; duplicates, losses and reordering are all possible. */
  predicate Arrivals(boot: seq<Frame>, arrivals: seq<nat>) {
    IsBoot(boot) && forall k | 0 <= k < |arrivals| :: arrivals[k] < |boot|
  }

  function Received(boot: seq<Frame>, numbered: bool, arrivals: seq<nat>): (packets: seq<Packet>)
    requires Arrivals(boot, arrivals)
    ensures |packets| == |arrivals|
    ensures forall k | 0 <= k < |arrivals| :: packets[k] == OnWire(boot[arrivals[k]], numbered)
  {
    seq(|arrivals|, k requires 0 <= k < |arrivals| => OnWire(boot[arrivals[k]], numbered))
  }

  /** A left-to-right maximum: later than everything before it. */
  predicate IsNewest(arrivals: seq<nat>, k: nat)
    requires k < |arrivals|
  {
    forall j | 0 <= j < k :: arrivals[j] < arrivals[k]
  }

  function Newest(arrivals: seq<nat>): (m: nat)
    requires arrivals != []
    ensures m in arrivals
    ensures forall k | 0 <= k < |arrivals| :: arrivals[k] <= m
  {
    var last := arrivals[|arrivals| - 1];
    if |arrivals| == 1 then last
    else
      var m := Newest(arrivals[..|arrivals| - 1]);
      if m < last then last else m
  }

  /** The first k arrivals were judged as newest or not, rightly. */
  predicate JudgedRightly(packets: seq<Packet>, arrivals: seq<nat>, k: nat, staleMs: int)
    requires |packets| == |arrivals| && k <= |arrivals|
  {
    forall j | 0 <= j < k :: AcceptedAt(packets, j, staleMs) <==> IsNewest(arrivals, j)
  }

  /** While arrivals are judged rightly the gate holds the newest frame received. */
  lemma {:induction false} GateHoldsNewest(boot: seq<Frame>, numbered: bool, arrivals: seq<nat>, k: nat, staleMs: int)
    requires Arrivals(boot, arrivals) && 0 < k <= |arrivals|
    requires JudgedRightly(Received(boot, numbered, arrivals), arrivals, k, staleMs)
    ensures Newest(arrivals[..k]) < |boot|
    ensures RunGate(Received(boot, numbered, arrivals)[..k], staleMs)
         == Gate(Some(OnWire(boot[Newest(arrivals[..k])], numbered)))
    decreases k
  {
    hide Accepts, OnWire, IsBoot;
    var packets := Received(boot, numbered, arrivals);
    var before := packets[..k - 1];
    assert packets[..k][..k - 1] == before && arrivals[..k][..k - 1] == arrivals[..k - 1];
    assert AcceptedAt(packets, k - 1, staleMs) <==> IsNewest(arrivals, k - 1);
    if k > 1 {
      GateHoldsNewest(boot, numbered, arrivals, k - 1, staleMs);
      NewestIsNewest(arrivals, k - 1);
    } else {
      assert before == [];
    }
  }

  lemma NewestIsNewest(arrivals: seq<nat>, k: nat)
    requires 0 < k < |arrivals|
    ensures IsNewest(arrivals, k) <==> Newest(arrivals[..k]) < arrivals[k]
  {
    var m := Newest(arrivals[..k]);
    var j :| 0 <= j < k && arrivals[..k][j] == m;
    assert arrivals[j] == m;
    assert forall i | 0 <= i < k :: arrivals[i] == arrivals[..k][i] <= m;
  }

  /** Arrival k is an old frame that the restart rule mistakes for a restart. */
  predicate MistakenAt(boot: seq<Frame>, numbered: bool, arrivals: seq<nat>, k: nat, staleMs: int)
    requires Arrivals(boot, arrivals) && 0 < k < |arrivals|
  {
    var m := Newest(arrivals[..k]);
    && m < |boot|
    && arrivals[k] <= m
    && LooksRestarted(OnWire(boot[m], numbered), OnWire(boot[arrivals[k]], numbered), staleMs)
  }

  lemma StepIsRight(boot: seq<Frame>, numbered: bool, arrivals: seq<nat>, k: nat, staleMs: int)
    requires Arrivals(boot, arrivals) && 0 < k < |arrivals|
    requires JudgedRightly(Received(boot, numbered, arrivals), arrivals, k, staleMs)
    ensures (AcceptedAt(Received(boot, numbered, arrivals), k, staleMs) <==> IsNewest(arrivals, k))
       <==> !MistakenAt(boot, numbered, arrivals, k, staleMs)
  {
    hide Newer, LooksRestarted, OnWire, IsNewest, IsBoot;
    GateHoldsNewest(boot, numbered, arrivals, k, staleMs);
    NewestIsNewest(arrivals, k);
    NewerIsLater(boot, numbered, Newest(arrivals[..k]), arrivals[k]);
  }

  /** In any arrival order the accepted frames are exactly the left-to-right maxima, if and only if no old
      frame satisfies the restart rule against the newest one received before it. */
  lemma AcceptedAreMaximaExactly(boot: seq<Frame>, numbered: bool, arrivals: seq<nat>, staleMs: int)
    requires Arrivals(boot, arrivals)
    ensures JudgedRightly(Received(boot, numbered, arrivals), arrivals, |arrivals|, staleMs)
       <==> forall k | 0 < k < |arrivals| :: !MistakenAt(boot, numbered, arrivals, k, staleMs)
  {
    hide MistakenAt, AcceptedAt, IsNewest, IsBoot;
    var packets := Received(boot, numbered, arrivals);
    if forall k | 0 < k < |arrivals| :: !MistakenAt(boot, numbered, arrivals, k, staleMs) {
      for k := 0 to |arrivals|
        invariant JudgedRightly(packets, arrivals, k, staleMs)
      {
        if k == 0 {
          FirstIsAccepted(packets, arrivals, staleMs);
        } else {
          StepIsRight(boot, numbered, arrivals, k, staleMs);
        }
      }
    }
    if JudgedRightly(packets, arrivals, |arrivals|, staleMs) {
      forall k | 0 < k < |arrivals| ensures !MistakenAt(boot, numbered, arrivals, k, staleMs) {
        assert JudgedRightly(packets, arrivals, k, staleMs);
        StepIsRight(boot, numbered, arrivals, k, staleMs);
      }
    }
  }

  lemma FirstIsAccepted(packets: seq<Packet>, arrivals: seq<nat>, staleMs: int)
    requires |packets| == |arrivals| > 0
    ensures AcceptedAt(packets, 0, staleMs) && IsNewest(arrivals, 0)
  {
    assert packets[..0] == [];
  }

  /** No frame of the boot shows a sequence number low enough for the restart rule. */
  predicate NumbersAreHigh(boot: seq<Frame>) {
    forall i | 0 <= i < |boot| :: Shown(boot[i].number) > RESTART_SEQUENCE
  }

  /** Frames past the first few: each frame is accepted at most once, only newer ones follow, and the last
      accepted is always the newest received. */
  lemma HighNumbersAreDeduplicated(boot: seq<Frame>, arrivals: seq<nat>, staleMs: int)
    requires Arrivals(boot, arrivals) && NumbersAreHigh(boot)
    ensures var packets := Received(boot, true, arrivals);
            && (forall k | 0 <= k < |arrivals| :: AcceptedAt(packets, k, staleMs) <==> IsNewest(arrivals, k))
            && (forall j, k | 0 <= j < k < |arrivals| && AcceptedAt(packets, j, staleMs) && AcceptedAt(packets, k, staleMs) ::
                  arrivals[j] < arrivals[k])
            && (arrivals != [] ==>
                  && Newest(arrivals) < |boot|
                  && RunGate(packets, staleMs) == Gate(Some(OnWire(boot[Newest(arrivals)], true))))
  {
    hide AcceptedAt, RunGate, Shown, IsBoot;
    AcceptedAreMaximaExactly(boot, true, arrivals, staleMs);
    if arrivals != [] {
      GateHoldsNewest(boot, true, arrivals, |arrivals|, staleMs);
      assert arrivals[..|arrivals|] == arrivals;
      assert Received(boot, true, arrivals)[..|arrivals|] == Received(boot, true, arrivals);
    }
  }

  predicate InOrder(arrivals: seq<nat>) { forall j, k | 0 <= j < k < |arrivals| :: arrivals[j] < arrivals[k] }

  /** A single link that delivers in order loses nothing, from the very first frame of the boot. */
  lemma InOrderLosesNothing(boot: seq<Frame>, numbered: bool, arrivals: seq<nat>, staleMs: int)
    requires Arrivals(boot, arrivals) && InOrder(arrivals)
    ensures forall k | 0 <= k < |arrivals| :: AcceptedAt(Received(boot, numbered, arrivals), k, staleMs)
  {
    hide AcceptedAt, IsBoot, LooksRestarted, OnWire;
    forall k | 0 < k < |arrivals| ensures !MistakenAt(boot, numbered, arrivals, k, staleMs) {
      assert IsNewest(arrivals, k);
      NewestIsNewest(arrivals, k);
    }
    AcceptedAreMaximaExactly(boot, numbered, arrivals, staleMs);
  }

  /** The first frames of a boot are not covered: frames numbered 5 and 6 arriving as 6, 5, 6 are all
      accepted, the last one a second time. */
  lemma EarlyFramesRepeat()
    ensures var boot := [Frame(500, 5), Frame(1000, 6)];
            && Arrivals(boot, [1, 0, 1])
            && (forall k | 0 <= k < 3 :: AcceptedAt(Received(boot, true, [1, 0, 1]), k, 2000))
  {
    var boot := [Frame(500, 5), Frame(1000, 6)];
    var old5, new6 := OnWire(boot[0], true), OnWire(boot[1], true);
    var packets := Received(boot, true, [1, 0, 1]);
    assert packets[..0] == [] && packets[..1] == [new6] && packets[..2] == [new6, old5];
    assert [new6][..0] == [] && [new6, old5][..1] == [new6];
    assert RunGate([], 2000) == Gate(None);
    assert RunGate([new6], 2000) == Gate(Some(new6));
    assert LooksRestarted(new6, old5, 2000);
    assert RunGate([new6, old5], 2000) == Gate(Some(old5));
    assert Newer(old5, new6);
    assert AcceptedAt(packets, 0, 2000) && AcceptedAt(packets, 1, 2000) && AcceptedAt(packets, 2, 2000);
  }
}
