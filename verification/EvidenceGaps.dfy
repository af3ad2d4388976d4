/** How rarely the evidence cache may be consulted: exactly as rarely as a packet stays fresh. */
module EvidenceGaps {
  import opened Options
  import opened Clock
  import opened NodeLink
  import opened FrontEvidence
  import ScanSweep
  import opened EvidenceSoundness

  /** The events come in order, none more than the gap after the last consultation before it. */
  ghost predicate RunWithin(start: int, events: seq<Event>, gap: int) {
    forall n | 0 <= n < |events| :: EventWithin(start, events, n, gap)
  }

  ghost predicate EventWithin(start: int, events: seq<Event>, n: nat, gap: int)
    requires n < |events|
  {
    var (w, log) := Run(start, events[..n]);
    InTime(w, events[n], gap) && CountersApart(w, log, events[n])
  }

  /** A range vouched for after the events is that of a packet looked at, truly young enough and not superseded. */
  ghost predicate VouchedHasSource(start: int, events: seq<Event>, at: int) {
    var (w, log) := Run(start, events);
    var range := Consult(w.evidence, w.link, Shown(at)).1;
    range.Some? ==> HasSource(log + [Looked(w, at)], at, range.value)
  }

  ghost predicate HasSource(log: seq<Entry>, at: int, mm: int) {
    exists k: nat :: Source(log, k, at) && log[k].packet.scanMm == mm
  }

  /** With gaps of at most this length every range the cache ever vouches for has a source. */
  ghost predicate SoundWithin(gap: int) {
    forall start: int, events: seq<Event>, at: int | RunWithin(start, events + [Consulted(at)], gap) ::
      VouchedHasSource(start, events, at)
  }

  lemma WithinIsRegular(start: int, events: seq<Event>, gap: int)
    requires RunWithin(start, events, gap) && gap <= STALE_MS
    ensures RegularRun(start, events)
  {
    hide Run, CountersApart;
    forall n | 0 <= n < |events| ensures Regular(Run(start, events[..n]).0, Run(start, events[..n]).1, events[n]) {
      assert EventWithin(start, events, n, gap);
    }
  }

  lemma FreshGapsAreSound(gap: int)
    requires gap <= STALE_MS
    ensures SoundWithin(gap)
  {
    hide Run, RegularRun, Consult, Upholds;
    forall start: int, events: seq<Event>, at: int | RunWithin(start, events + [Consulted(at)], gap)
      ensures VouchedHasSource(start, events, at)
    {
      WithinIsRegular(start, events + [Consulted(at)], gap);
      var (w, log) := Run(start, events);
      var range := Consult(w.evidence, w.link, Shown(at)).1;
      if range.Some? {
        CacheVouchesExactly(start, events, at, range.value);
        var k: nat :| Source(log + [Looked(w, at)], k, at) && (log + [Looked(w, at)])[k].packet.scanMm == range.value;
      }
    }
  }

  // ---------------------------------------------------------------------------
  // A longer gap
  // ---------------------------------------------------------------------------

  // One millisecond more than a packet stays fresh.
  const GAP := STALE_MS + 1
  // How many such gaps fit before the clock of the main controller has wrapped.
  const MISSES := 8572789

  const ONLY := Packet(1, 7, 0, 1000, 7, 500, 7, SCANNER_BIT | SERVO_BIT)

  function Consultations(n: nat): seq<Event> {
    if n == 0 then [] else Consultations(n - 1) + [Consulted(GAP * n)]
  }

  /** One packet, received just after a consultation, and then only consultations. */
  function Silence(n: nat): seq<Event> { [Received(0, ONLY)] + Consultations(n) }

  function Misses(n: nat): (log: seq<Entry>)
    ensures forall k | 0 <= k < |log| :: log[k] == Missed
  {
    if n == 0 then [] else Misses(n - 1) + [Missed]
  }

  const HEARD := Link(ONLY, 0, true, Stats(1, 0, 0, 0))

  function Deaf(n: nat): World { World(HEARD, NO_EVIDENCE, 1, 0, 1, 0, GAP * n, GAP * n) }

  /** Every consultation misses the packet until the clock has wrapped, so the cache never takes notice of it. */
  lemma {:induction false} SilenceIsMissed(n: nat)
    requires n <= MISSES
    ensures Run(0, Silence(n)) == (Deaf(n), Misses(n))
    ensures RunWithin(0, Silence(n), GAP)
    decreases n
  {
    hide Run, Step, Silence, Deaf, RunWithin, InTime, CountersApart, Looked;
    if n == 0 {
      PacketIsHeard();
    } else {
      var e := Consulted(GAP * n);
      SilenceIsMissed(n - 1);
      SilenceLengthens(n);
      OneMoreMiss(n);
      NothingSeen(n - 1);
      UnseenApart(Deaf(n - 1), Misses(n - 1), e);
      RunExtends(0, Silence(n - 1), e, GAP);
    }
  }

  lemma SilenceLengthens(n: nat)
    requires n > 0
    ensures Silence(n) == Silence(n - 1) + [Consulted(GAP * n)]
  {
  }

  lemma UnseenApart(w: World, log: seq<Entry>, e: Event)
    requires LastSeen(log) == None
    ensures CountersApart(w, log, e)
  {
  }

  lemma PacketIsHeard()
    ensures Run(0, Silence(0)) == (Deaf(0), Misses(0))
    ensures RunWithin(0, Silence(0), GAP)
  {
    assert Silence(0) == [Received(0, ONLY)];
    assert [Received(0, ONLY)][..0] == [];
    assert Run(0, []) == (Starting(0), []);
  }

  lemma OneMoreMiss(n: nat)
    requires 0 < n <= MISSES
    ensures Step(Deaf(n - 1), Consulted(GAP * n)) == Deaf(n)
    ensures Looked(Deaf(n - 1), GAP * n) == Missed
    ensures InTime(Deaf(n - 1), Consulted(GAP * n), GAP)
  {
    assert STALE_MS < GAP * n < WRAP;
    assert Shown(GAP * n) == GAP * n;
  }

  lemma RunExtends(start: int, events: seq<Event>, e: Event, gap: int)
    ensures var (w, log) := Run(start, events);
            && Run(start, events + [e]) == (Step(w, e), Logged(w, log, e))
            && (RunWithin(start, events, gap) && InTime(w, e, gap) && CountersApart(w, log, e) ==>
                  RunWithin(start, events + [e], gap))
  {
    hide Step, Logged, CountersApart;
    var all := events + [e];
    assert all[..|events|] == events && all[|events|] == e;
    if RunWithin(start, events, gap) && InTime(Run(start, events).0, e, gap)
       && CountersApart(Run(start, events).0, Run(start, events).1, e)
    {
      forall n | 0 <= n < |all| ensures EventWithin(start, all, n, gap) {
        if n < |events| {
          assert EventWithin(start, events, n, gap);
          assert all[..n] == events[..n];
        }
      }
    }
  }

  lemma WiderStillWithin(start: int, events: seq<Event>, gap: int, wider: int)
    requires RunWithin(start, events, gap) && gap <= wider
    ensures RunWithin(start, events, wider)
  {
    hide Run, CountersApart;
    forall n | 0 <= n < |events| ensures EventWithin(start, events, n, wider) {
      assert EventWithin(start, events, n, gap);
    }
  }

  /** After a wrap the packet passes for a fresh one and its range is vouched for, weeks too late. */
  lemma WrappedPacketIsVouched()
    ensures Consult(NO_EVIDENCE, HEARD, Shown(GAP * (MISSES + 1))).1 == Some(1000)
    ensures Looked(Deaf(MISSES), GAP * (MISSES + 1)) == Seen(1, 0, 1, 0, ONLY)
    ensures Age(Seen(1, 0, 1, 0, ONLY), GAP * (MISSES + 1)) > ScanSweep.EVIDENCE_STALE_MS
  {
    assert GAP * (MISSES + 1) == WRAP + 494;
    assert Shown(GAP * (MISSES + 1)) == 494;
    assert ONLY.ScannerHealthy() by {
      assert (SCANNER_BIT | SERVO_BIT) & SCANNER_BIT != 0 && (SCANNER_BIT | SERVO_BIT) & SERVO_BIT != 0;
    }
  }

  lemma WiderGapsAreUnsound(gap: int)
    requires gap > STALE_MS
    ensures !SoundWithin(gap)
  {
    hide Run, Consult, SoundWithin, Silence;
    var at, events := GAP * (MISSES + 1), Silence(MISSES);
    SilenceIsMissed(MISSES);
    WrappedPacketIsVouched();
    LateConsultation(events, at);
    WiderStillWithin(0, events + [Consulted(at)], GAP, gap);
    var log := Misses(MISSES) + [Seen(1, 0, 1, 0, ONLY)];
    forall k: nat ensures !Source(log, k, at) {
      if k < |log| - 1 {
        assert log[k] == Missed;
      }
    }
    assert !VouchedHasSource(0, events, at);
    UnsoundRun(0, events, at, gap);
  }

  lemma LateConsultation(events: seq<Event>, at: int)
    requires events == Silence(MISSES) && at == GAP * (MISSES + 1)
    ensures RunWithin(0, events + [Consulted(at)], GAP)
  {
    hide Run, Consult, Silence;
    SilenceIsMissed(MISSES);
    NothingSeen(MISSES);
    RunExtends(0, events, Consulted(at), GAP);
  }

  lemma {:induction false} NothingSeen(n: nat)
    ensures LastSeen(Misses(n)) == None
  {
    if n > 0 {
      NothingSeen(n - 1);
      assert Misses(n)[..|Misses(n)| - 1] == Misses(n - 1);
    }
  }

  lemma UnsoundRun(start: int, events: seq<Event>, at: int, gap: int)
    requires RunWithin(start, events + [Consulted(at)], gap) && !VouchedHasSource(start, events, at)
    ensures !SoundWithin(gap)
  {
    hide RunWithin, VouchedHasSource;
  }

  /** The cache is sound in all runs whose gaps are at most this long if and only if they are no longer than a
      packet stays fresh. */
  lemma SoundExactly(gap: int)
    ensures SoundWithin(gap) <==> gap <= STALE_MS
  {
    hide SoundWithin;
    if gap <= STALE_MS {
      FreshGapsAreSound(gap);
    } else {
      WiderGapsAreUnsound(gap);
    }
  }
}
