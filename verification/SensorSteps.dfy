/** What one use of the sensor node does, whatever state it is in: when a sample begins, what is read into it, when it
    is sent and with what, and which deadlines and fields change. */
module SensorSteps {
  import opened Options
  import opened Clock
  import opened ScanSweep
  import opened SensorNode

  /** What the node waits for has come: the end of settling or of the pause between fixed samples, the scanner's reading
      or its timeout, the end of a guard time. */
  predicate Due(s: Settings, n: Node, now: U32, a: Answers) {
    match n.phase
    case ServoSettling => TimeReached(now, if n.scanning then n.nextScanMs else n.nextFixedMs)
    case ScannerWaiting => a.ready || ElapsedMs(now, n.startedMs) >= s.readTimeoutMs
    case FixedAGuard => TimeReached(now, n.nextActionMs)
    case FixedBGuard => TimeReached(now, n.nextActionMs)
  }

  predicate Begins(s: Settings, n: Node, now: U32, a: Answers) { n.phase.ServoSettling? && Due(s, n, now, a) }

  /** The scanner is read at all only while scanning, with a working servo, and if it starts. */
  predicate StartsScanner(s: Settings, n: Node, now: U32, a: Answers) {
    Begins(s, n, now, a) && n.scanning && n.servoOk && a.started
  }

  predicate ReadsA(s: Settings, n: Node, now: U32, a: Answers) {
    (n.phase.FixedAGuard? && Due(s, n, now, a)) || (Begins(s, n, now, a) && !n.scanning)
  }

  predicate ReadsB(s: Settings, n: Node, now: U32, a: Answers) { n.phase.FixedBGuard? && Due(s, n, now, a) }

  /** The packet goes out with its last reading. */
  predicate Sends(s: Settings, n: Node, now: U32, a: Answers) {
    ReadsB(s, n, now, a) || (ReadsA(s, n, now, a) && !s.hasFixedB)
  }

  predicate EndsScan(s: Settings, n: Node, now: U32, a: Answers) { n.phase.ScannerWaiting? && Due(s, n, now, a) }

  /** The sample in the making: a fresh one holds the angle and the time it begins, and no ranges; a reading that timed
      out stays without a range and bears the time it was given up. */
  lemma SampleExactly(s: Settings, n: Node, now: U32, a: Answers)
    ensures var (m, _) := Updated(s, n, now, a);
            var begins, ends := Begins(s, n, now, a), EndsScan(s, n, now, a);
            && m.pendingAngle == (if begins then n.sweep.angle else n.pendingAngle)
            && m.pendingScanMm == (if ends && a.ready then a.scanMm else if begins || ends then -1 else n.pendingScanMm)
            && m.pendingScanMs == (if ends && a.ready then a.later else if begins || ends then now else n.pendingScanMs)
            && m.pendingFixedAMm ==
               (if ReadsA(s, n, now, a) then a.fixedAMm else if begins then -1 else n.pendingFixedAMm)
            && m.pendingFixedBMm ==
               (if ReadsB(s, n, now, a) then a.fixedBMm else if begins then -1 else n.pendingFixedBMm)
  {
    hide TimeReached, Shown, Advance, ElapsedMs;
  }

  /** A packet goes out exactly with the last reading of its sample, numbered on, stamped with the time after it, and
      carrying the sample. */
  lemma PacketExactly(s: Settings, n: Node, now: U32, a: Answers)
    ensures var (m, p) := Updated(s, n, now, a);
            && (p.Some? <==> Sends(s, n, now, a))
            && m.sequence == (if Sends(s, n, now, a) then Shown(n.sequence + 1) else n.sequence)
            && (p.Some? ==>
                  p.value == Packet(m.sequence, a.later, m.pendingAngle, m.pendingScanMm, m.pendingScanMs,
                                    m.pendingFixedAMm, m.pendingFixedBMm))
  {
    hide TimeReached, Shown, Advance, ElapsedMs;
  }

  /** The phase goes on exactly when what it waits for has come, over the sensors there are; each phase gets its own
      deadline; with a packet the sweep moves on, and the servo fails if it does not take the angle. */
  lemma StepExactly(s: Settings, n: Node, now: U32, a: Answers)
    ensures var (m, _) := Updated(s, n, now, a);
            var due, sends := Due(s, n, now, a), Sends(s, n, now, a);
            && m.phase == (if !due then n.phase
                           else if StartsScanner(s, n, now, a) then ScannerWaiting
                           else if sends then ServoSettling
                           else if ReadsA(s, n, now, a) then FixedBGuard
                           else FixedAGuard)
            && m.startedMs == (if StartsScanner(s, n, now, a) then now else n.startedMs)
            && m.nextActionMs ==
               (if due && !StartsScanner(s, n, now, a) && !sends then Shown(a.later + s.guardMs) else n.nextActionMs)
            && m.nextScanMs == (if sends then Shown(a.later + n.settleMs) else n.nextScanMs)
            && m.nextFixedMs == (if sends then Shown(a.later + s.fixedPeriodMs) else n.nextFixedMs)
            && m.sweep == (if sends && n.scanning then Advance(s.sweep, n.sweep) else n.sweep)
            && m.servoOk == (n.servoOk && (sends && n.scanning ==> a.wrote))
            && m.scanning == n.scanning && m.settleMs == n.settleMs
  {
    hide TimeReached, Shown, Advance, ElapsedMs;
  }

  /** A command: scanning starts over at the lower end after a settling time; switched off or centred, the first fixed
      sample waits for a scan under way to time out; centring moves the angle if the servo takes it; a settling time
      is taken within its limits and changes nothing else. */
  lemma CommandExactly(s: Settings, n: Node, c: Command, now: U32, wrote: bool)
    ensures var m := Commanded(s, n, c, now, wrote);
            var moves := c.ScanOn? || c.Center?;
            && m.scanning == (c.ScanOn? || (c.Settle? && n.scanning))
            && m.phase == (if c.Settle? then n.phase else ServoSettling)
            && m.servoOk == (n.servoOk && (moves ==> wrote))
            && m.sweep.angle == (if c.ScanOn? then s.sweep.minDeg
                                 else if c.Center? && n.servoOk && wrote then s.centerDeg else n.sweep.angle)
            && m.sweep.upwards == (c.ScanOn? || n.sweep.upwards)
            && m.nextScanMs == (if c.ScanOn? then Shown(now + n.settleMs) else n.nextScanMs)
            && m.nextFixedMs == (if c.ScanOff? || c.Center? then Shown(now + s.readTimeoutMs) else n.nextFixedMs)
            && m.settleMs == (if c.Settle? && s.minSettleMs <= c.requestedMs <= s.maxSettleMs then c.requestedMs
                              else n.settleMs)
            && m.sequence == n.sequence && m.nextActionMs == n.nextActionMs && m.startedMs == n.startedMs
            && (m.pendingAngle, m.pendingScanMm, m.pendingScanMs, m.pendingFixedAMm, m.pendingFixedBMm)
               == (n.pendingAngle, n.pendingScanMm, n.pendingScanMs, n.pendingFixedAMm, n.pendingFixedBMm)
  {
    hide Shown;
  }

  /** After power-up the node scans from the lower end, a settling time later. */
  lemma PowerUp(s: Settings, start: U32, servoOk: bool)
    ensures var n := Starting(s, start, servoOk);
            && n.scanning && n.servoOk == servoOk && n.settleMs == s.settleMs && n.phase.ServoSettling?
            && n.sweep == Sweep(s.sweep.minDeg, true) && n.sequence == 0
            && n.nextScanMs == Shown(start + s.settleMs) && n.nextFixedMs == Shown(start + s.fixedPeriodMs)
            && n.pendingScanMm == n.pendingFixedAMm == n.pendingFixedBMm == -1
  {
  }
}
