/** What a range vouched for by the evidence cache is: over whole runs, in true
    time, across wraps of both controllers' clocks. */
module EvidenceSoundness {
  import opened Options
  import opened Clock
  import opened NodeLink
  import opened FrontEvidence
  import opened ScanSweep

  /** What happens on the main controller: a line of the node is handled, or the cache is consulted. */
  datatype Event = Received(at: int, packet: Packet) | Consulted(at: int)

  /** The link and the cache, and what only an observer knows: how many packets were
      accepted, from which boot, the unwrapped sequence number, and true times. */
  datatype World = World(
    link: Link, evidence: Evidence, id: nat, boot: nat, sequence: int, receivedAt: int, consultedAt: int, now: int)

  function Starting(at: int): World { World(NodeLink.INITIAL, NO_EVIDENCE, 0, 0, 0, at, at, at) }

  function Step(w: World, e: Event): World {
    match e
    case Received(at, p) =>
      var reboot := w.link.hasPacket && ProbableReboot(w.link.packet, p);
      var link := Receive(w.link, p, Shown(at));
      if !Accepts(w.link, p) then w.(link := link, now := at)
      else
        w.(link := link, id := w.id + 1, boot := if reboot then w.boot + 1 else w.boot,
           sequence := if reboot || !w.link.hasPacket then p.sequence else w.sequence + NodeLink.Advance(w.link.packet, p),
           receivedAt := at, now := at)
    case Consulted(at) =>
      w.(evidence := Consult(w.evidence, w.link, Shown(at)).0, consultedAt := at, now := at)
  }

  /** What a consultation looked at: nothing fresh, or the link's packet. */
  datatype Entry = Missed | Seen(id: nat, boot: nat, sequence: int, receivedAt: int, packet: Packet)

  function Looked(w: World, at: int): Entry {
    if IsFresh(w.link, Shown(at)) then Seen(w.id, w.boot, w.sequence, w.receivedAt, w.link.packet) else Missed
  }

  function Logged(w: World, log: seq<Entry>, e: Event): seq<Entry> {
    if e.Consulted? then log + [Looked(w, e.at)] else log
  }

  function LastSeen(log: seq<Entry>): (r: Option<Entry>)
    ensures r.Some? ==> r.value.Seen?
  {
    if log == [] then None
    else if log[|log| - 1].Seen? then Some(log[|log| - 1])
    else LastSeen(log[..|log| - 1])
  }

  // ---------------------------------------------------------------------------
  // The requirement
  // ---------------------------------------------------------------------------

  /** The true age of the packet's scanner sample: on the way since it was received,
      and before that on the node's own clock. */
  function Age(e: Entry, now: int): int
    requires e.Seen?
  {
    now - e.receivedAt + ElapsedMs(e.packet.nodeMs, e.packet.scanMs)
  }

  /** The packet is a healthy one with a range from within 50 degrees, no older than 1800 ms. */
  predicate Vouches(e: Entry, now: int) {
    && e.Seen? && e.packet.ScannerHealthy() && -50 <= e.packet.angle <= 50
    && 1 <= e.packet.scanMm <= 4000 && Age(e, now) <= 1800
  }

  /** A later look does not supersede the packet: it saw the same one, or a healthy one
      of the same boot out of the sector. */
  predicate Upholds(e: Entry, later: Entry) {
    && e.Seen? && later.Seen? && later.boot == e.boot && later.packet.ScannerHealthy()
    && (later.id == e.id || !InSector(later.packet.angle))
  }

  ghost predicate Source(log: seq<Entry>, k: nat, now: int) {
    k < |log| && Vouches(log[k], now) && forall j | k < j < |log| :: Upholds(log[k], log[j])
  }

  /** Regular consultation: nothing happens more than the freshness limit after the
      last consultation, and between two consultations that see a packet neither the
      sequence numbers of a boot nor the boots run through all 32 bits. */
  ghost predicate Regular(w: World, log: seq<Entry>, e: Event) {
    InTime(w, e, STALE_MS) && CountersApart(w, log, e)
  }

  /** The event comes after all others and within the gap since the last consultation. */
  predicate InTime(w: World, e: Event, gap: int) { w.now <= e.at <= w.consultedAt + gap }

  ghost predicate CountersApart(w: World, log: seq<Entry>, e: Event) {
    (e.Consulted? && LastSeen(log).Some? ==>
          && (w.boot == LastSeen(log).value.boot ==> w.sequence - LastSeen(log).value.sequence < WRAP)
          && w.boot - LastSeen(log).value.boot < WRAP)
  }

  // ---------------------------------------------------------------------------
  // The invariant
  // ---------------------------------------------------------------------------

  ghost predicate LinkTrue(w: World) {
    && w.consultedAt <= w.now <= w.consultedAt + STALE_MS
    && w.link.stats.reboots == Shown(w.boot)
    && (w.link.hasPacket ==>
          && w.link.receivedMs == Shown(w.receivedAt) && w.receivedAt <= w.now
          && w.link.packet.sequence == Shown(w.sequence))
  }

  ghost predicate IsCurrent(w: World, e: Entry) {
    e == Seen(w.id, w.boot, w.sequence, w.receivedAt, w.link.packet)
  }

  /** The cache remembers the last packet seen; a newer one came in after the last consultation. */
  ghost predicate Remembers(w: World, log: seq<Entry>) {
    match LastSeen(log)
    case None =>
      !w.evidence.hasProcessed && (w.link.hasPacket ==> w.consultedAt <= w.receivedAt)
    case Some(l) =>
      && w.link.hasPacket && w.evidence.hasProcessed
      && w.evidence.lastSequence == Shown(l.sequence) && w.evidence.observedReboots == Shown(l.boot)
      && l.id <= w.id && l.boot <= w.boot && l.receivedAt <= w.receivedAt
      && (l.id == w.id ==> IsCurrent(w, l))
      && (l.id < w.id ==> w.consultedAt <= w.receivedAt && (l.boot == w.boot ==> l.sequence < w.sequence))
      && (log[|log| - 1].Missed? && l.id == w.id ==> w.consultedAt - w.receivedAt > STALE_MS)
  }

  ghost predicate LogInOrder(log: seq<Entry>) {
    LastSeen(log).Some? ==>
      var l := LastSeen(log).value;
      forall k | 0 <= k < |log| && log[k].Seen? ::
        && log[k].id <= l.id && log[k].boot <= l.boot && log[k].receivedAt <= l.receivedAt
        && (log[k].id == l.id ==> log[k] == l)
  }

  /** The cache holds a range exactly when the log has a source for it, and then that one. */
  ghost predicate Holds(e: Evidence, log: seq<Entry>, now: int) {
    && (e.valid ==> exists k: nat :: Source(log, k, now))
    && (forall k: nat | Source(log, k, now) :: HoldsFrom(e, log[k]))
  }

  ghost predicate HoldsFrom(e: Evidence, entry: Entry) {
    && entry.Seen? && e.valid && e.rangeMm == entry.packet.scanMm
    && e.sampleMs == Shown(entry.receivedAt - ElapsedMs(entry.packet.nodeMs, entry.packet.scanMs))
  }

  ghost predicate Inv(w: World, log: seq<Entry>) {
    LinkTrue(w) && Remembers(w, log) && LogInOrder(log) && Holds(w.evidence, log, w.consultedAt)
  }

  // ---------------------------------------------------------------------------
  // Receiving
  // ---------------------------------------------------------------------------

  lemma ReceivingKeepsInv(w: World, log: seq<Entry>, e: Event)
    requires Inv(w, log) && Regular(w, log, e) && e.Received?
    ensures Inv(Step(w, e), log)
  {
    hide ProbableReboot, Holds, LogInOrder;
    if Accepts(w.link, e.packet) && w.link.hasPacket && !ProbableReboot(w.link.packet, e.packet) {
      AdvancesPositively(w.link, e.packet);
      AdvanceIsShown(w.sequence, w.link.packet, e.packet);
    }
    CounterCounts(w.boot);
  }

  lemma CounterCounts(n: nat)
    ensures Plus(Shown(n), 1) == Shown(n + 1)
  {
    var q := n / WRAP;
    assert n == q * WRAP + Shown(n);
    ModuloAddsWraps(Shown(n) + 1, q);
  }

  lemma AdvanceIsShown(sequence: int, last: Packet, p: Packet)
    requires last.sequence == Shown(sequence)
    ensures Shown(sequence + NodeLink.Advance(last, p)) == p.sequence
  {
    var q, d := sequence / WRAP, (p.sequence - last.sequence) / WRAP;
    assert sequence == q * WRAP + last.sequence;
    assert p.sequence - last.sequence == d * WRAP + NodeLink.Advance(last, p);
    ModuloAddsWraps(p.sequence, q - d);
  }

  // ---------------------------------------------------------------------------
  // Consulting
  // ---------------------------------------------------------------------------

  /** A source of the longer log is one of the shorter log that the new look upholds, or the new look itself. */
  lemma SourceExtends(log: seq<Entry>, e: Entry, k: nat, before: int, now: int)
    requires before <= now
    ensures k < |log| ==>
              (Source(log + [e], k, now) <==> Source(log, k, before) && Upholds(log[k], e) && Age(log[k], now) <= EVIDENCE_STALE_MS)
    ensures Source(log + [e], |log|, now) <==> Vouches(e, now)
  {
    var all := log + [e];
    if k < |log| && Source(all, k, now) {
      assert Upholds(all[k], all[|log|]);
      forall j | k < j < |log| ensures Upholds(log[k], log[j]) {
        assert Upholds(all[k], all[j]);
      }
    }
    if k < |log| && Source(log, k, before) && Upholds(log[k], e) && Age(log[k], now) <= EVIDENCE_STALE_MS {
      forall j | k < j < |all| ensures Upholds(all[k], all[j]) {
        if j < |log| {
          assert Upholds(log[k], log[j]);
        }
      }
    }
  }

  lemma NothingHeld(log: seq<Entry>, e: Entry, before: int, now: int, evidence: Evidence)
    requires before <= now && !evidence.valid && !Vouches(e, now)
    requires forall k: nat | k < |log| :: !Source(log, k, before) || !Upholds(log[k], e)
    ensures Holds(evidence, log + [e], now)
  {
    hide Upholds, Vouches, HoldsFrom;
    forall k: nat | k <= |log| ensures !Source(log + [e], k, now) {
      SourceExtends(log, e, k, before, now);
    }
  }

  /** A new look that vouches, and upholds nothing before it, becomes the one source. */
  lemma NewlyHeld(log: seq<Entry>, e: Entry, before: int, now: int, evidence: Evidence)
    requires before <= now && Vouches(e, now) && HoldsFrom(evidence, e)
    requires forall k: nat | k < |log| :: !Upholds(log[k], e)
    ensures Holds(evidence, log + [e], now)
  {
    hide Upholds, Vouches, HoldsFrom;
    SourceExtends(log, e, |log|, before, now);
    forall k: nat | k <= |log| && Source(log + [e], k, now) ensures HoldsFrom(evidence, (log + [e])[k]) {
      SourceExtends(log, e, k, before, now);
    }
  }

  /** The wrapping clock measures the true age of what the cache holds. */
  lemma HeldAge(e: Evidence, entry: Entry, before: int, now: int)
    requires HoldsFrom(e, entry) && Age(entry, before) <= EVIDENCE_STALE_MS && before <= now <= before + STALE_MS
    requires entry.receivedAt <= now
    ensures ElapsedMs(Shown(now), e.sampleMs) == Age(entry, now)
  {
    ElapsedIsTrue(now, entry.receivedAt - ElapsedMs(entry.packet.nodeMs, entry.packet.scanMs));
  }

  /** The look upholds whatever source there was: the cache keeps it as long as it is young enough. */
  lemma StillHeld(log: seq<Entry>, e: Entry, before: int, now: int, evidence: Evidence, after: Evidence)
    requires before <= now <= before + STALE_MS && Holds(evidence, log, before)
    requires forall k: nat | k < |log| && Source(log, k, before) :: Upholds(log[k], e) && log[k].receivedAt <= now
    requires Vouches(e, now) ==> exists k: nat :: Source(log, k, before) && log[k] == e
    requires after.valid <==> evidence.valid && ElapsedMs(Shown(now), evidence.sampleMs) <= EVIDENCE_STALE_MS
    requires after.valid ==> after.rangeMm == evidence.rangeMm && after.sampleMs == evidence.sampleMs
    ensures Holds(after, log + [e], now)
  {
    hide Upholds, Vouches, ElapsedMs, Shown;
    forall k: nat | Source(log, k, before)
      ensures HoldsFrom(evidence, log[k]) && ElapsedMs(Shown(now), evidence.sampleMs) == Age(log[k], now)
    {
      SourceAge(log, k, before);
      HeldAge(evidence, log[k], before, now);
    }
    if after.valid {
      var k: nat :| Source(log, k, before);
      SourceExtends(log, e, k, before, now);
      assert Source(log + [e], k, now);
    }
    forall k: nat | k <= |log| && Source(log + [e], k, now) ensures HoldsFrom(after, (log + [e])[k]) {
      SourceExtends(log, e, k, before, now);
      if k == |log| {
        var m: nat :| Source(log, m, before) && log[m] == e;
        VouchingAge(e, now);
      }
    }
  }

  lemma SourceAge(log: seq<Entry>, k: nat, now: int)
    requires Source(log, k, now)
    ensures k < |log| && log[k].Seen? && Age(log[k], now) <= EVIDENCE_STALE_MS
  {
  }

  lemma VouchingAge(e: Entry, now: int)
    requires Vouches(e, now)
    ensures Age(e, now) <= EVIDENCE_STALE_MS
  {
  }

  // The cases of a consultation -----------------------------------------------

  /** The link's packet has not been seen before. */
  predicate IsUnseen(w: World, log: seq<Entry>) { LastSeen(log).None? || LastSeen(log).value.id < w.id }

  lemma {:induction false} LastSeenAppends(log: seq<Entry>, e: Entry)
    ensures LastSeen(log + [e]) == if e.Seen? then Some(e) else LastSeen(log)
  {
    assert (log + [e])[..|log|] == log;
  }

  lemma {:induction false} LastSeenIsLast(log: seq<Entry>) returns (p: nat)
    requires LastSeen(log).Some?
    ensures p < |log| && log[p] == LastSeen(log).value && forall j | p < j < |log| :: log[j].Missed?
  {
    if log[|log| - 1].Seen? {
      p := |log| - 1;
    } else {
      p := LastSeenIsLast(log[..|log| - 1]);
    }
  }

  lemma {:induction false} SeenMeansLastSeen(log: seq<Entry>, k: nat)
    requires k < |log| && log[k].Seen?
    ensures LastSeen(log).Some?
  {
    if !log[|log| - 1].Seen? {
      SeenMeansLastSeen(log[..|log| - 1], k);
    }
  }

  /** A look that misses leaves nothing held. */
  lemma MissingKeepsInv(w: World, log: seq<Entry>, at: int)
    requires Inv(w, log) && Regular(w, log, Consulted(at)) && !IsFresh(w.link, Shown(at))
    ensures Inv(Step(w, Consulted(at)), log + [Missed]) && Consult(w.evidence, w.link, Shown(at)).1.None?
  {
    hide Holds, Source, Vouches;
    LastSeenAppends(log, Missed);
    MissedVouchesNothing(at);
    NothingHeld(log, Missed, w.consultedAt, at, Cleared(w.evidence));
    if w.link.hasPacket && at - w.receivedAt <= STALE_MS {
      ElapsedIsTrue(at, w.receivedAt);
    }
  }

  lemma MissedVouchesNothing(at: int)
    ensures !Vouches(Missed, at)
  {
  }

  /** A fresh packet that was not seen before is truly no older than the freshness limit. */
  lemma UnseenIsRecent(w: World, log: seq<Entry>, at: int)
    requires LinkTrue(w) && Remembers(w, log) && w.link.hasPacket && IsUnseen(w, log)
    requires w.now <= at <= w.consultedAt + STALE_MS
    ensures 0 <= at - w.receivedAt <= STALE_MS && AgeMs(w.link, Shown(at)) == at - w.receivedAt
    ensures IsFresh(w.link, Shown(at))
  {
    ElapsedIsTrue(at, w.receivedAt);
  }

  /** Whether the cache takes the packet as new is whether it has not been seen. */
  lemma NewMeansUnseen(w: World, log: seq<Entry>, at: int)
    requires LinkTrue(w) && Remembers(w, log) && Regular(w, log, Consulted(at)) && w.link.hasPacket
    ensures var n := Noticed(w.evidence, w.link);
            && (IsUnseen(w, log) <==> !(n.hasProcessed && w.link.packet.sequence == n.lastSequence))
            && n.observedReboots == Shown(w.boot)
            && (!IsUnseen(w, log) ==> n == w.evidence)
            && (LastSeen(log).Some? && LastSeen(log).value.boot < w.boot ==> !n.valid)
            && (LastSeen(log).Some? && LastSeen(log).value.boot == w.boot ==> n == w.evidence)
            && (LastSeen(log).None? ==> n.valid ==> w.evidence.valid)
  {
    match LastSeen(log)
    case None =>
    case Some(l) =>
      if l.boot < w.boot {
        DifferWithinWrap(l.boot, w.boot);
      } else if l.id < w.id {
        DifferWithinWrap(l.sequence, w.sequence);
      }
  }

  lemma DifferWithinWrap(a: int, b: int)
    requires a < b < a + WRAP
    ensures Shown(a) != Shown(b)
  {
    ElapsedIsTrue(b, a);
  }

  lemma EmptyHoldsNothing(w: World, log: seq<Entry>)
    requires Holds(w.evidence, log, w.consultedAt) && LastSeen(log).None?
    ensures !w.evidence.valid
  {
    if w.evidence.valid {
      var k: nat :| Source(log, k, w.consultedAt);
      SeenMeansLastSeen(log, k);
    }
  }

  lemma LookingRemembers(w: World, log: seq<Entry>, at: int)
    requires LinkTrue(w) && Remembers(w, log) && LogInOrder(log) && Regular(w, log, Consulted(at)) && IsFresh(w.link, Shown(at))
    requires Step(w, Consulted(at)).evidence.hasProcessed
    requires Step(w, Consulted(at)).evidence.lastSequence == w.link.packet.sequence
    requires Step(w, Consulted(at)).evidence.observedReboots == Shown(w.boot)
    ensures LinkTrue(Step(w, Consulted(at))) && Remembers(Step(w, Consulted(at)), log + [Looked(w, at)])
    ensures LogInOrder(log + [Looked(w, at)])
  {
    hide Consult;
    var e := Looked(w, at);
    LastSeenAppends(log, e);
    forall k | 0 <= k < |log| && log[k].Seen? 
      ensures log[k].id <= e.id && log[k].boot <= e.boot && log[k].receivedAt <= e.receivedAt && (log[k].id == e.id ==> log[k] == e)
    {
      SeenMeansLastSeen(log, k);
    }
  }

  /** After an unhealthy packet nothing is held. */
  lemma UnhealthyHoldsNothing(w: World, log: seq<Entry>, at: int)
    requires Inv(w, log) && Regular(w, log, Consulted(at)) && IsFresh(w.link, Shown(at))
    requires !w.link.packet.ScannerHealthy()
    ensures Inv(Step(w, Consulted(at)), log + [Looked(w, at)]) && Consult(w.evidence, w.link, Shown(at)).1.None?
  {
    hide Holds, Source, LogInOrder;
    NewMeansUnseen(w, log, at);
    LookingRemembers(w, log, at);
    NothingHeld(log, Looked(w, at), w.consultedAt, at, Consult(w.evidence, w.link, Shown(at)).0);
  }

  /** Nothing seen before upholds a packet that is unseen and in the sector. */
  lemma UnseenInSectorSupersedes(w: World, log: seq<Entry>, at: int, k: nat)
    requires LogInOrder(log) && k < |log| && IsUnseen(w, log) && InSector(w.link.packet.angle)
    ensures !Upholds(log[k], Seen(w.id, w.boot, w.sequence, w.receivedAt, w.link.packet))
  {
    if log[k].Seen? {
      SeenMeansLastSeen(log, k);
    }
  }

  /** An unseen in-sector packet replaces what was held, or clears it. */
  lemma UnseenInSector(w: World, log: seq<Entry>, at: int)
    requires Inv(w, log) && Regular(w, log, Consulted(at)) && IsFresh(w.link, Shown(at))
    requires w.link.packet.ScannerHealthy() && IsUnseen(w, log) && InSector(w.link.packet.angle)
    ensures Inv(Step(w, Consulted(at)), log + [Looked(w, at)])
    ensures Consult(w.evidence, w.link, Shown(at)).1 ==
            if Vouches(Looked(w, at), at) then Some(w.link.packet.scanMm) else None
  {
    hide Holds, Source, LogInOrder, ElapsedMs, Shown;
    var e, r := Looked(w, at), Consult(w.evidence, w.link, Shown(at));
    NewMeansUnseen(w, log, at);
    LookingRemembers(w, log, at);
    UnseenIsRecent(w, log, at);
    forall k: nat | k < |log| ensures !Upholds(log[k], e) {
      UnseenInSectorSupersedes(w, log, at, k);
    }
    if Vouches(e, at) {
      SampleShown(w.receivedAt, at, ElapsedMs(w.link.packet.nodeMs, w.link.packet.scanMs));
      NewlyHeld(log, e, w.consultedAt, at, r.0);
    } else {
      NothingHeld(log, e, w.consultedAt, at, r.0);
    }
  }

  lemma SampleShown(receivedAt: int, at: int, localAge: U32)
    requires receivedAt <= at && at - receivedAt + localAge < WRAP
    ensures Shown(Shown(at) - (at - receivedAt + localAge)) == Shown(receivedAt - localAge)
    ensures ElapsedMs(Shown(at), Shown(receivedAt - localAge)) == at - receivedAt + localAge
  {
    var q := at / WRAP;
    assert at == q * WRAP + Shown(at);
    ModuloAddsWraps(Shown(at) - (at - receivedAt + localAge), q);
    ElapsedIsTrue(at, receivedAt - localAge);
  }

  /** An unseen out-of-sector packet of the same boot leaves what is held, as long as it is young enough. */
  lemma UnseenOutOfSector(w: World, log: seq<Entry>, at: int)
    requires Inv(w, log) && Regular(w, log, Consulted(at)) && IsFresh(w.link, Shown(at))
    requires w.link.packet.ScannerHealthy() && IsUnseen(w, log) && !InSector(w.link.packet.angle)
    ensures Inv(Step(w, Consulted(at)), log + [Looked(w, at)])
  {
    hide Holds, Source, LogInOrder, ElapsedMs, Shown;
    var e, r := Looked(w, at), Consult(w.evidence, w.link, Shown(at));
    NewMeansUnseen(w, log, at);
    LookingRemembers(w, log, at);
    if LastSeen(log).None? || LastSeen(log).value.boot < w.boot {
      if LastSeen(log).None? {
        EmptyHoldsNothing(w, log);
      }
      forall k: nat | k < |log| ensures !Upholds(log[k], e) {
        OtherBootIsOver(w, log, e, k);
      }
      NothingHeld(log, e, w.consultedAt, at, r.0);
    } else {
      forall k: nat | k < |log| && Source(log, k, w.consultedAt) ensures Upholds(log[k], e) && log[k].receivedAt <= at {
        SameBootUpholds(w, log, e, k, w.consultedAt);
        SourceReceivedBefore(w, log, k);
      }
      StillHeld(log, e, w.consultedAt, at, w.evidence, r.0);
    }
  }

  lemma OtherBootIsOver(w: World, log: seq<Entry>, e: Entry, k: nat)
    requires LogInOrder(log) && k < |log| && e.Seen? && e.boot == w.boot
    requires LastSeen(log).None? || LastSeen(log).value.boot < w.boot
    ensures !Upholds(log[k], e)
  {
    if log[k].Seen? {
      SeenMeansLastSeen(log, k);
    }
  }

  lemma SameBootUpholds(w: World, log: seq<Entry>, e: Entry, k: nat, now: int)
    requires Source(log, k, now) && LastSeen(log).Some? && LastSeen(log).value.boot == w.boot
    requires e.Seen? && e.boot == w.boot && e.packet.ScannerHealthy() && !InSector(e.packet.angle)
    ensures k < |log| && log[k].Seen? && Upholds(log[k], e)
  {
    LastOfSource(log, k, now);
  }

  /** The last look of a log with a source is the source or upholds it. */
  lemma LastOfSource(log: seq<Entry>, k: nat, now: int)
    requires Source(log, k, now)
    ensures LastSeen(log) == Some(log[|log| - 1])
    ensures log[|log| - 1] == log[k] || Upholds(log[k], log[|log| - 1])
  {
    if k < |log| - 1 {
      assert Upholds(log[k], log[|log| - 1]);
    }
  }

  lemma SourceReceivedBefore(w: World, log: seq<Entry>, k: nat)
    requires LinkTrue(w) && Remembers(w, log) && LogInOrder(log) && k < |log| && log[k].Seen?
    ensures log[k].receivedAt <= w.now
  {
    SeenMeansLastSeen(log, k);
  }

  /** Looking at the same packet again leaves what is held, as long as it is young enough. */
  lemma SeenAgain(w: World, log: seq<Entry>, at: int)
    requires Inv(w, log) && Regular(w, log, Consulted(at)) && IsFresh(w.link, Shown(at))
    requires w.link.packet.ScannerHealthy() && !IsUnseen(w, log)
    ensures Inv(Step(w, Consulted(at)), log + [Looked(w, at)])
  {
    hide Holds, Source, LogInOrder, ElapsedMs, Shown, Vouches;
    var e, r := Looked(w, at), Consult(w.evidence, w.link, Shown(at));
    NewMeansUnseen(w, log, at);
    LookingRemembers(w, log, at);
    assert LastSeen(log) == Some(e);
    forall k: nat | k < |log| && Source(log, k, w.consultedAt) ensures Upholds(log[k], e) && log[k].receivedAt <= at {
      SameAgainUpholds(log, e, k, w.consultedAt);
      SourceReceivedBefore(w, log, k);
    }
    if Vouches(e, at) {
      var p := VouchedBefore(w, log, e, at);
    }
    StillHeld(log, e, w.consultedAt, at, w.evidence, r.0);
  }

  lemma SameAgainUpholds(log: seq<Entry>, e: Entry, k: nat, now: int)
    requires Source(log, k, now) && LastSeen(log) == Some(e) && e.packet.ScannerHealthy()
    ensures k < |log| && log[k].Seen? && Upholds(log[k], e)
  {
    LastOfSource(log, k, now);
  }

  /** A packet seen again that vouches now was a source before: no look has missed it in between. */
  lemma VouchedBefore(w: World, log: seq<Entry>, e: Entry, at: int) returns (p: nat)
    requires LinkTrue(w) && Remembers(w, log) && LastSeen(log) == Some(e) && e.id == w.id
    requires w.now <= at && IsFresh(w.link, Shown(at)) && Vouches(e, at)
    ensures Source(log, p, w.consultedAt) && log[p] == e
  {
    p := LastSeenIsLast(log);
    if log[|log| - 1].Missed? {
      // Stale then, fresh now: a whole wrap has passed, and the packet is too old to vouch.
      if at - w.receivedAt < WRAP {
        ElapsedIsTrue(at, w.receivedAt);
      }
    }
  }

  // ---------------------------------------------------------------------------
  // Whole runs
  // ---------------------------------------------------------------------------

  lemma ConsultingKeepsInv(w: World, log: seq<Entry>, at: int)
    requires Inv(w, log) && Regular(w, log, Consulted(at))
    ensures Inv(Step(w, Consulted(at)), log + [Looked(w, at)])
  {
    hide Inv, Regular, Step, Looked, IsFresh;
    if !IsFresh(w.link, Shown(at)) {
      LookedMissed(w, at);
      MissingKeepsInv(w, log, at);
    } else if !w.link.packet.ScannerHealthy() {
      UnhealthyHoldsNothing(w, log, at);
    } else if !IsUnseen(w, log) {
      SeenAgain(w, log, at);
    } else if InSector(w.link.packet.angle) {
      UnseenInSector(w, log, at);
    } else {
      UnseenOutOfSector(w, log, at);
    }
  }

  lemma LookedMissed(w: World, at: int)
    requires !IsFresh(w.link, Shown(at))
    ensures Looked(w, at) == Missed
  {
  }

  function Run(start: int, events: seq<Event>): (World, seq<Entry>) {
    if events == [] then (Starting(start), [])
    else
      var (w, log), e := Run(start, events[..|events| - 1]), events[|events| - 1];
      (Step(w, e), Logged(w, log, e))
  }

  /** Every event comes in time after the ones before it. */
  ghost predicate RegularRun(start: int, events: seq<Event>) {
    forall n | 0 <= n < |events| :: Regular(Run(start, events[..n]).0, Run(start, events[..n]).1, events[n])
  }

  lemma {:induction false} RunKeepsInv(start: int, events: seq<Event>)
    requires RegularRun(start, events)
    ensures Inv(Run(start, events).0, Run(start, events).1)
  {
    hide Inv, Regular, Step;
    if events == [] {
      StartingInv(start);
    } else {
      var last, init := |events| - 1, events[..|events| - 1];
      forall n | 0 <= n < |init| ensures Regular(Run(start, init[..n]).0, Run(start, init[..n]).1, init[n]) {
        assert init[..n] == events[..n];
      }
      RunKeepsInv(start, init);
      var (w, log) := Run(start, init);
      if events[last].Consulted? {
        ConsultingKeepsInv(w, log, events[last].at);
      } else {
        ReceivingKeepsInv(w, log, events[last]);
      }
    }
  }

  lemma StartingInv(start: int)
    ensures Inv(Starting(start), [])
  {
  }

  /** Evidence soundness, both ways: in any regular run the cache vouches for a range
      at `at` exactly when some packet it was consulted on carries that range, was
      healthy and in the sector, is truly no older than allowed, and has been upheld
      by every look since, this one included. */
  lemma CacheVouchesExactly(start: int, events: seq<Event>, at: int, mm: int)
    requires RegularRun(start, events + [Consulted(at)])
    ensures var (w, log) := Run(start, events);
            Consult(w.evidence, w.link, Shown(at)).1 == Some(mm)
            <==> exists k: nat :: Source(log + [Looked(w, at)], k, at) && (log + [Looked(w, at)])[k].packet.scanMm == mm
  {
    hide Regular, Step;
    var all := events + [Consulted(at)];
    assert all[..|events|] == events && all[|events|] == Consulted(at);
    RunKeepsInv(start, all);
    var (w, log) := Run(start, events);
    ConsultTells(w, log, at, mm);
  }

  lemma ConsultTells(w: World, log: seq<Entry>, at: int, mm: int)
    requires Inv(Step(w, Consulted(at)), log + [Looked(w, at)])
    ensures Consult(w.evidence, w.link, Shown(at)).1 == Some(mm)
            <==> exists k: nat :: Source(log + [Looked(w, at)], k, at) && (log + [Looked(w, at)])[k].packet.scanMm == mm
  {
    hide Vouches, Upholds;
    var r, all := Consult(w.evidence, w.link, Shown(at)), log + [Looked(w, at)];
    ConsultResult(w.evidence, w.link, Shown(at));
    assert Holds(r.0, all, at);
    if r.1 == Some(mm) {
      var k: nat :| Source(all, k, at);
      assert HoldsFrom(r.0, all[k]);
    }
    if k: nat :| Source(all, k, at) && all[k].packet.scanMm == mm {
      assert HoldsFrom(r.0, all[k]);
    }
  }

  lemma ConsultResult(e: Evidence, l: Link, now: U32)
    ensures var r := Consult(e, l, now); r.1 == if r.0.valid then Some(r.0.rangeMm) else None
  {
  }

  /** What that means for the truck: the range is that of a healthy packet of the
      node's current boot, from within the sector, at most 1800 ms old. */
  lemma VouchedRangeIsSound(start: int, events: seq<Event>, at: int)
    requires RegularRun(start, events + [Consulted(at)])
    requires Consult(Run(start, events).0.evidence, Run(start, events).0.link, Shown(at)).1.Some?
    ensures var (w, log) := Run(start, events);
            exists e | e in log + [Looked(w, at)] ::
              && Vouches(e, at) && e.boot == w.boot
              && Consult(w.evidence, w.link, Shown(at)).1 == Some(e.packet.scanMm)
  {
    hide Regular, Step, Run;
    var (w, log) := Run(start, events);
    var mm := Consult(w.evidence, w.link, Shown(at)).1.value;
    CacheVouchesExactly(start, events, at, mm);
    var all := log + [Looked(w, at)];
    var k: nat :| Source(all, k, at) && all[k].packet.scanMm == mm;
    assert all[k] in all;
    LastOfSource(all, k, at);
  }
}
