/** The sensor node's acquisition cycle: settle, scan, guard, fixed sensors, packet,
    next angle. The sensors, the servo and the clock are what each update is told. */
module SensorNode {
  import opened Options
  import opened Clock
  import opened ScanSweep

  const INVALID_MM := -1

  datatype Phase = ServoSettling | ScannerWaiting | FixedAGuard | FixedBGuard

  datatype Settings = Settings(
    sweep: Config, centerDeg: int, hasFixedB: bool, settleMs: U32, minSettleMs: U32, maxSettleMs: U32,
    guardMs: U32, readTimeoutMs: U32, fixedPeriodMs: U32)

  /** What the hardware answers during one update: the time later in it, whether the scanner
      starts, whether its reading is ready, the readings, and whether the servo takes the angle. */
  datatype Answers = Answers(
    later: U32, started: bool, ready: bool, scanMm: int, fixedAMm: int, fixedBMm: int, wrote: bool)

  datatype Command = ScanOn | ScanOff | Center | Settle(requestedMs: nat)

  datatype Packet = Packet(sequence: U32, sentMs: U32, angle: int, scanMm: int, scanMs: U32, fixedAMm: int, fixedBMm: int)

  datatype Node = Node(
    scanning: bool, servoOk: bool, settleMs: U32,
    phase: Phase, sweep: Sweep, sequence: U32, nextScanMs: U32, nextFixedMs: U32, nextActionMs: U32, startedMs: U32,
    pendingAngle: int, pendingScanMm: int, pendingScanMs: U32, pendingFixedAMm: int, pendingFixedBMm: int)

  /** The node after power-up, with its servo attached or not. */
  function Starting(s: Settings, now: U32, servoOk: bool): Node {
    Node(true, servoOk, s.settleMs, ServoSettling, Sweep(s.sweep.minDeg, true), 0,
         Shown(now + s.settleMs), Shown(now + s.fixedPeriodMs), 0, 0, 0, INVALID_MM, 0, INVALID_MM, INVALID_MM)
  }

  function GuardedA(s: Settings, n: Node, later: U32): Node {
    n.(phase := FixedAGuard, nextActionMs := Shown(later + s.guardMs))
  }

  function Finished(s: Settings, n: Node, a: Answers): (Node, Packet) {
    var m := if n.scanning then n.(sweep := Advance(s.sweep, n.sweep), servoOk := n.servoOk && a.wrote) else n;
    (m.(phase := ServoSettling, sequence := Shown(n.sequence + 1),
        nextScanMs := Shown(a.later + n.settleMs), nextFixedMs := Shown(a.later + s.fixedPeriodMs)),
     Packet(Shown(n.sequence + 1), a.later, n.pendingAngle, n.pendingScanMm, n.pendingScanMs,
            n.pendingFixedAMm, n.pendingFixedBMm))
  }

  /** A fresh sample at the current angle. */
  function Begun(n: Node, now: U32): Node {
    n.(pendingAngle := n.sweep.angle, pendingScanMm := INVALID_MM, pendingScanMs := now,
       pendingFixedAMm := INVALID_MM, pendingFixedBMm := INVALID_MM)
  }

  function SampledA(s: Settings, n: Node, a: Answers): (Node, Option<Packet>) {
    var m := n.(pendingFixedAMm := a.fixedAMm);
    if s.hasFixedB then (m.(phase := FixedBGuard, nextActionMs := Shown(a.later + s.guardMs)), None)
    else var r := Finished(s, m, a); (r.0, Some(r.1))
  }

  /** One update of the node. */
  function Updated(s: Settings, n: Node, now: U32, a: Answers): (Node, Option<Packet>) {
    match n.phase
    case ServoSettling =>
      if n.scanning then
        if !TimeReached(now, n.nextScanMs) then (n, None)
        else if n.servoOk && a.started then (Begun(n, now).(phase := ScannerWaiting, startedMs := now), None)
        else (GuardedA(s, Begun(n, now), a.later), None)
      else if !TimeReached(now, n.nextFixedMs) then (n, None)
      else SampledA(s, Begun(n, now), a)
    case ScannerWaiting =>
      if a.ready then (GuardedA(s, n.(pendingScanMm := a.scanMm, pendingScanMs := a.later), a.later), None)
      else if IntervalElapsed(now, n.startedMs, s.readTimeoutMs) then
        (GuardedA(s, n.(pendingScanMm := INVALID_MM, pendingScanMs := now), a.later), None)
      else (n, None)
    case FixedAGuard =>
      if !TimeReached(now, n.nextActionMs) then (n, None) else SampledA(s, n, a)
    case FixedBGuard =>
      if !TimeReached(now, n.nextActionMs) then (n, None)
      else var r := Finished(s, n.(pendingFixedBMm := a.fixedBMm), a); (r.0, Some(r.1))
  }

  /** A command of the main controller. */
  function Commanded(s: Settings, n: Node, c: Command, now: U32, wrote: bool): Node {
    var ok := n.servoOk && wrote;
    match c
    case ScanOn =>
      n.(scanning := true, phase := ServoSettling, sweep := Sweep(s.sweep.minDeg, true), servoOk := ok,
         nextScanMs := Shown(now + n.settleMs))
    case ScanOff => n.(scanning := false, phase := ServoSettling, nextFixedMs := Shown(now + s.readTimeoutMs))
    case Center =>
      n.(scanning := false, phase := ServoSettling, servoOk := ok, nextFixedMs := Shown(now + s.readTimeoutMs),
         sweep := if ok then n.sweep.(angle := s.centerDeg) else n.sweep)
    case Settle(requested) =>
      if s.minSettleMs <= requested <= s.maxSettleMs then n.(settleMs := requested) else n
  }

  class XiaoSensorNode {
    const settings: Settings
    var scanning: bool
    var servoOk: bool
    var settleMs: U32
    var phase: Phase
    var angle: int
    var upwards: bool
    var sequence: U32
    var nextScanMs: U32
    var nextFixedMs: U32
    var nextActionMs: U32
    var startedMs: U32
    var pendingAngle: int
    var pendingScanMm: int
    var pendingScanMs: U32
    var pendingFixedAMm: int
    var pendingFixedBMm: int

    constructor (settings: Settings, now: U32, servoOk: bool)
      ensures this.settings == settings && Value() == Starting(settings, now, servoOk)
    {
      this.settings := settings;
      scanning, this.servoOk, settleMs := true, servoOk, settings.settleMs;
      phase, angle, upwards, sequence := ServoSettling, settings.sweep.minDeg, true, 0;
      nextScanMs, nextFixedMs := Shown(now + settings.settleMs), Shown(now + settings.fixedPeriodMs);
      nextActionMs, startedMs := 0, 0;
      pendingAngle, pendingScanMm, pendingScanMs := 0, INVALID_MM, 0;
      pendingFixedAMm, pendingFixedBMm := INVALID_MM, INVALID_MM;
    }

    function Value(): Node
      reads this
    {
      Node(scanning, servoOk, settleMs, phase, Sweep(angle, upwards), sequence, nextScanMs, nextFixedMs, nextActionMs,
           startedMs, pendingAngle, pendingScanMm, pendingScanMs, pendingFixedAMm, pendingFixedBMm)
    }

    method AdvanceScanAngle()
      modifies this`angle, this`upwards
      ensures Sweep(angle, upwards) == Advance(settings.sweep, old(Sweep(angle, upwards)))
    {
      if upwards {
        if angle >= settings.sweep.maxDeg {
          upwards := false;
          angle := settings.sweep.maxDeg - settings.sweep.stepDeg;
        } else {
          angle := angle + settings.sweep.stepDeg;
        }
        return;
      }
      if angle <= settings.sweep.minDeg {
        upwards := true;
        angle := settings.sweep.minDeg + settings.sweep.stepDeg;
      } else {
        angle := angle - settings.sweep.stepDeg;
      }
    }

    method FinishPendingPacket(a: Answers) returns (packet: Packet)
      modifies this
      ensures (Value(), packet) == Finished(settings, old(Value()), a)
    {
      hide Shown, Advance;
      sequence := Shown(sequence + 1);
      packet := Packet(sequence, a.later, pendingAngle, pendingScanMm, pendingScanMs, pendingFixedAMm, pendingFixedBMm);
      if scanning {
        AdvanceScanAngle();
        if !a.wrote {
          servoOk := false;
        }
      }
      phase := ServoSettling;
      nextScanMs := Shown(a.later + settleMs);
      nextFixedMs := Shown(a.later + settings.fixedPeriodMs);
    }

    method Begin(now: U32)
      modifies this
      ensures Value() == Begun(old(Value()), now)
    {
      pendingAngle, pendingScanMm, pendingScanMs := angle, INVALID_MM, now;
      pendingFixedAMm, pendingFixedBMm := INVALID_MM, INVALID_MM;
    }

    method ScheduleFixedA(later: U32)
      modifies this
      ensures Value() == GuardedA(settings, old(Value()), later)
    {
      phase, nextActionMs := FixedAGuard, Shown(later + settings.guardMs);
    }

    method SamplePendingFixedA(a: Answers) returns (packet: Option<Packet>)
      modifies this
      ensures (Value(), packet) == SampledA(settings, old(Value()), a)
    {
      pendingFixedAMm := a.fixedAMm;
      if settings.hasFixedB {
        phase, nextActionMs := FixedBGuard, Shown(a.later + settings.guardMs);
        return None;
      }
      var p := FinishPendingPacket(a);
      packet := Some(p);
    }

    method Update(now: U32, a: Answers) returns (packet: Option<Packet>)
      modifies this
      ensures (Value(), packet) == Updated(settings, old(Value()), now, a)
    {
      hide Shown, ElapsedMs, Advance;
      packet := None;
      match phase
      case ScannerWaiting =>
        if a.ready {
          pendingScanMm, pendingScanMs := a.scanMm, a.later;
          ScheduleFixedA(a.later);
        } else if IntervalElapsed(now, startedMs, settings.readTimeoutMs) {
          pendingScanMm, pendingScanMs := INVALID_MM, now;
          ScheduleFixedA(a.later);
        }
      case FixedAGuard =>
        if TimeReached(now, nextActionMs) {
          packet := SamplePendingFixedA(a);
        }
      case FixedBGuard =>
        if TimeReached(now, nextActionMs) {
          pendingFixedBMm := a.fixedBMm;
          var p := FinishPendingPacket(a);
          packet := Some(p);
        }
      case ServoSettling =>
        if scanning {
          if TimeReached(now, nextScanMs) {
            Begin(now);
            if servoOk && a.started {
              phase, startedMs := ScannerWaiting, now;
            } else {
              ScheduleFixedA(a.later);
            }
          }
        } else if TimeReached(now, nextFixedMs) {
          Begin(now);
          packet := SamplePendingFixedA(a);
        }
    }

    method HandleCommand(c: Command, now: U32, wrote: bool)
      modifies this
      ensures Value() == Commanded(settings, old(Value()), c, now, wrote)
    {
      hide Shown;
      match c
      case ScanOn =>
        scanning, phase := true, ServoSettling;
        upwards, angle := true, settings.sweep.minDeg;
        servoOk := servoOk && wrote;
        nextScanMs := Shown(now + settleMs);
      case ScanOff =>
        scanning, phase := false, ServoSettling;
        nextFixedMs := Shown(now + settings.readTimeoutMs);
      case Center =>
        scanning, phase := false, ServoSettling;
        servoOk := servoOk && wrote;
        if servoOk {
          angle := settings.centerDeg;
        }
        nextFixedMs := Shown(now + settings.readTimeoutMs);
      case Settle(requested) =>
        if settings.minSettleMs <= requested <= settings.maxSettleMs {
          settleMs := requested;
        }
    }
  }

  // ---------------------------------------------------------------------------
  // Runs
  // ---------------------------------------------------------------------------

  /** One use of the node: an update, or a command. */
  datatype Use = Polled(now: U32, answers: Answers) | Told(command: Command, now: U32, wrote: bool)

  function Used(s: Settings, n: Node, u: Use): (Node, Option<Packet>) {
    match u
    case Polled(now, answers) => Updated(s, n, now, answers)
    case Told(command, now, wrote) => (Commanded(s, n, command, now, wrote), None)
  }

  /** The node and the packets it has sent. */
  function Run(s: Settings, start: U32, servoOk: bool, uses: seq<Use>): (Node, seq<Packet>) {
    if uses == [] then (Starting(s, start, servoOk), [])
    else
      var before := Run(s, start, servoOk, uses[..|uses| - 1]);
      var after := Used(s, before.0, uses[|uses| - 1]);
      (after.0, match after.1 case None => before.1 case Some(packet) => before.1 + [packet])
  }

  /** Whatever is asked of the node and whatever its sensors answer, packet k carries sequence number k + 1, modulo
      2^32. */
  lemma {:induction false} PacketsAreNumbered(s: Settings, start: U32, servoOk: bool, uses: seq<Use>)
    ensures var (n, packets) := Run(s, start, servoOk, uses);
            && n.sequence == Shown(|packets|)
            && (forall k | 0 <= k < |packets| :: packets[k].sequence == Shown(k + 1))
  {
    hide Used, Starting, Shown;
    if uses == [] {
      StartsAtZero(s, start, servoOk);
    } else {
      PacketsAreNumbered(s, start, servoOk, uses[..|uses| - 1]);
      UseNumbers(s, Run(s, start, servoOk, uses[..|uses| - 1]).0, uses[|uses| - 1]);
      ShownSum(|Run(s, start, servoOk, uses[..|uses| - 1]).1|, 1);
    }
  }

  lemma StartsAtZero(s: Settings, start: U32, servoOk: bool)
    ensures Starting(s, start, servoOk).sequence == Shown(0)
  {
  }

  lemma UseNumbers(s: Settings, n: Node, u: Use)
    ensures var (m, p) := Used(s, n, u);
            if p.Some? then p.value.sequence == Shown(n.sequence + 1) == m.sequence else m.sequence == n.sequence
  {
    hide Shown, TimeReached, IntervalElapsed, Advance;
  }

  /** How many packets have been sent since scanning was last switched on; None while it is off. */
  function SentSinceOn(s: Settings, start: U32, servoOk: bool, uses: seq<Use>): (r: Option<nat>) {
    if uses == [] then Some(0)
    else
      var before := SentSinceOn(s, start, servoOk, uses[..|uses| - 1]);
      match uses[|uses| - 1]
      case Told(ScanOn, _, _) => Some(0)
      case Told(ScanOff, _, _) => None
      case Told(Center, _, _) => None
      case Told(Settle(_), _, _) => before
      case Polled(now, answers) =>
        if before.Some? && Updated(s, Run(s, start, servoOk, uses[..|uses| - 1]).0, now, answers).1.Some?
        then Some(before.value + 1) else before
  }

  /** While scanning, the next packet carries the angle of the sweep counted from when scanning was switched on. */
  lemma {:induction false} ScanFollowsSweep(s: Settings, start: U32, servoOk: bool, uses: seq<Use>)
    ensures var n, count := Run(s, start, servoOk, uses).0, SentSinceOn(s, start, servoOk, uses);
            && n.scanning == count.Some?
            && (n.scanning ==>
                  n.sweep == After(s.sweep, count.value) && (!n.phase.ServoSettling? ==> n.pendingAngle == n.sweep.angle))
  {
    hide Updated, Advance, Starting, Commanded;
    if uses == [] {
      StartsAtBottom(s, start, servoOk);
    } else {
      var n, u := Run(s, start, servoOk, uses[..|uses| - 1]).0, uses[|uses| - 1];
      ScanFollowsSweep(s, start, servoOk, uses[..|uses| - 1]);
      match u
      case Polled(now, answers) => UpdateFollowsSweep(s, n, now, answers);
      case Told(command, now, wrote) => CommandSweeps(s, n, command, now, wrote);
    }
  }

  lemma StartsAtBottom(s: Settings, start: U32, servoOk: bool)
    ensures var n := Starting(s, start, servoOk); n.scanning && n.phase.ServoSettling? && n.sweep == After(s.sweep, 0)
  {
  }

  lemma CommandSweeps(s: Settings, n: Node, c: Command, now: U32, wrote: bool)
    ensures var m := Commanded(s, n, c, now, wrote);
            match c
            case ScanOn => m.scanning && m.phase.ServoSettling? && m.sweep == After(s.sweep, 0)
            case Settle(_) => m == n.(settleMs := m.settleMs)
            case _ => !m.scanning
  {
  }

  /** An update of a scanning node sends at most one packet, with the angle it set out with, and then moves on. */
  lemma UpdateFollowsSweep(s: Settings, n: Node, now: U32, a: Answers)
    requires n.scanning && !n.phase.ServoSettling? ==> n.pendingAngle == n.sweep.angle
    ensures var (m, p) := Updated(s, n, now, a);
            && m.scanning == n.scanning
            && (n.scanning ==>
                  && (!m.phase.ServoSettling? ==> m.pendingAngle == m.sweep.angle)
                  && (if p.Some? then p.value.angle == n.sweep.angle && m.sweep == Advance(s.sweep, n.sweep)
                      else m.sweep == n.sweep))
  {
    hide Shown, TimeReached, IntervalElapsed, Advance;
  }

  predicate OnlyPolled(uses: seq<Use>) { forall k | 0 <= k < |uses| :: uses[k].Polled? }

  /** Without commands packet k carries the k-th angle of the sweep. */
  lemma {:induction false} PacketsFollowSweep(s: Settings, start: U32, servoOk: bool, uses: seq<Use>)
    requires OnlyPolled(uses)
    ensures SentSinceOn(s, start, servoOk, uses) == Some(|Run(s, start, servoOk, uses).1|)
    ensures var packets := Run(s, start, servoOk, uses).1;
            forall k | 0 <= k < |packets| :: packets[k].angle == After(s.sweep, k).angle
  {
    hide Updated, Advance, Starting, After;
    if uses != [] {
      var init, u := uses[..|uses| - 1], uses[|uses| - 1];
      var n := Run(s, start, servoOk, init).0;
      PacketsFollowSweep(s, start, servoOk, init);
      ScanFollowsSweep(s, start, servoOk, init);
      UpdateFollowsSweep(s, n, u.now, u.answers);
    }
  }
}
