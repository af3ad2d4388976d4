/** The evidence cache of the front scanner: the last in-sector range, kept while
    the sweep is out of the forward sector, and the ranges collected from it. */
module FrontEvidence {
  import opened Options
  import opened Clock
  import opened NodeLink
  import opened ScanSweep

  const FIXED_MAX_MM := 2000
  const MINIMUM_RANGES := 2

  datatype Evidence = Evidence(
    valid: bool, rangeMm: int, sampleMs: U32, hasProcessed: bool, lastSequence: U32, observedReboots: U32)

  const NO_EVIDENCE := Evidence(false, -1, 0, false, 0, 0)

  predicate ValidRange(mm: int, maximum: int) { 1 <= mm <= maximum }

  /** The age of a sample of the link's packet, saturating. */
  function SampleAgeMs(l: Link, now: U32, sampleNodeMs: U32): U32 {
    var linkAge, localAge := AgeMs(l, now), ElapsedMs(l.packet.nodeMs, sampleNodeMs);
    if WRAP - 1 - linkAge < localAge then WRAP - 1 else linkAge + localAge
  }

  function Cleared(e: Evidence): Evidence { e.(valid := false, rangeMm := -1, sampleMs := 0) }

  /** The evidence once a restart of the node has been noticed. */
  function Noticed(e: Evidence, l: Link): Evidence {
    if l.stats.reboots == e.observedReboots then e
    else Cleared(e).(observedReboots := l.stats.reboots, hasProcessed := false)
  }

  /** The evidence once a healthy packet has been looked at. */
  function Processed(e: Evidence, l: Link, now: U32): Evidence {
    var p := l.packet;
    if e.hasProcessed && p.sequence == e.lastSequence then e
    else
      var f := e.(hasProcessed := true, lastSequence := p.sequence);
      if !InSector(p.angle) then f
      else
        var age := SampleAgeMs(l, now, p.scanMs);
        if ValidRange(p.scanMm, SCANNER_MAX_MM) && age <= EVIDENCE_STALE_MS then
          f.(valid := true, rangeMm := p.scanMm, sampleMs := Shown(now - age))
        else Cleared(f)
  }

  /** One evaluation of the cache: the evidence after it and the range it vouches for. */
  function Consult(e: Evidence, l: Link, now: U32): (Evidence, Option<int>) {
    if !IsFresh(l, now) then (Cleared(e), None)
    else
      var n := Noticed(e, l);
      if !l.packet.ScannerHealthy() then
        (Cleared(n).(hasProcessed := true, lastSequence := l.packet.sequence), None)
      else
        var f := Processed(n, l, now);
        if !f.valid || ElapsedMs(now, f.sampleMs) > EVIDENCE_STALE_MS then (Cleared(f), None)
        else (f, Some(f.rangeMm))
  }

  /** Evidence that is held is a range the scanner can report. */
  predicate InRange(e: Evidence) { e.valid ==> ValidRange(e.rangeMm, SCANNER_MAX_MM) }

  lemma ConsultingKeepsRange(e: Evidence, l: Link, now: U32)
    requires InRange(e)
    ensures var r := Consult(e, l, now); InRange(r.0) && (r.1.Some? ==> ValidRange(r.1.value, SCANNER_MAX_MM))
  {
  }

  // ---------------------------------------------------------------------------
  // Collecting the forward ranges
  // ---------------------------------------------------------------------------

  /** Ranges accumulated so far, in millimetres: how many, and the nearest. */
  datatype Ranges = Ranges(count: nat, nearestMm: int)

  function Included(r: Ranges, mm: int, maximum: int): Ranges {
    if !ValidRange(mm, maximum) then r
    else Ranges(r.count + 1, if r.count == 0 || mm < r.nearestMm then mm else r.nearestMm)
  }

  lemma StaleVouchesNothing(e: Evidence, l: Link, now: U32)
    ensures !IsFresh(l, now) ==> Consult(e, l, now).1.None?
  {
  }

  class FrontScanner {
    const node: Node
    var valid: bool
    var rangeMm: int
    var sampleMs: U32
    var hasProcessed: bool
    var lastSequence: U32
    var observedReboots: U32

    constructor (node: Node)
      ensures this.node == node && Value() == NO_EVIDENCE && Valid()
    {
      this.node := node;
      valid, rangeMm, sampleMs := false, -1, 0;
      hasProcessed, lastSequence, observedReboots := false, 0, 0;
    }

    function Value(): Evidence
      reads this
    {
      Evidence(valid, rangeMm, sampleMs, hasProcessed, lastSequence, observedReboots)
    }

    ghost predicate Valid()
      reads this
    {
      InRange(Value())
    }

    method Clear()
      modifies this
      ensures Value() == Cleared(old(Value()))
    {
      valid, rangeMm, sampleMs := false, -1, 0;
    }

    method CachedRange(now: U32) returns (range: Option<int>)
      modifies this
      ensures (Value(), range) == Consult(old(Value()), old(node.Value()), now)
    {
      hide ElapsedMs, Shown, IsFresh, InSector, ValidRange;
      if !IsFresh(node.Value(), now) {
        Clear();
        return None;
      }
      var packet := node.packet;
      if node.stats.reboots != observedReboots {
        Clear();
        observedReboots, hasProcessed := node.stats.reboots, false;
      }
      if !packet.ScannerHealthy() {
        Clear();
        hasProcessed, lastSequence := true, packet.sequence;
        return None;
      }
      if !hasProcessed || packet.sequence != lastSequence {
        hasProcessed, lastSequence := true, packet.sequence;
        if InSector(packet.angle) {
          var age := SampleAgeMs(node.Value(), now, packet.scanMs);
          if ValidRange(packet.scanMm, SCANNER_MAX_MM) && age <= EVIDENCE_STALE_MS {
            valid, rangeMm, sampleMs := true, packet.scanMm, Shown(now - age);
          } else {
            Clear();
          }
        }
      }
      if !valid || ElapsedMs(now, sampleMs) > EVIDENCE_STALE_MS {
        Clear();
        return None;
      }
      range := Some(rangeMm);
    }

    /** The forward ranges: the one the cache vouches for and the fixed sensor's, if it has a fresh valid one.
        Coverage is sufficient exactly when there are both, and the nearest is the nearer of those there are. */
    method CollectForwardRanges(now: U32) returns (ranges: Ranges, coverage: bool)
      requires Valid()
      modifies this
      ensures Valid() && Value() == Consult(old(Value()), old(node.Value()), now).0
      ensures var link := old(node.Value());
              var scanner, mm := Consult(old(Value()), link, now).1, link.packet.fixedMm;
              var fixed := IsFresh(link, now) && link.packet.health & 2 != 0 && 1 <= mm <= 2000
                           && SampleAgeMs(link, now, link.packet.fixedMs) <= 500;
              && (coverage <==> scanner.Some? && fixed)
              && ranges.count == (if scanner.Some? then 1 else 0) + (if fixed then 1 else 0)
              && (scanner.Some? && fixed ==> ranges.nearestMm == if scanner.value <= mm then scanner.value else mm)
              && (scanner.Some? && !fixed ==> ranges.nearestMm == scanner.value)
              && (scanner.None? && fixed ==> ranges.nearestMm == mm)
    {
      hide Consult, SampleAgeMs;
      ConsultingKeepsRange(Value(), node.Value(), now);
      StaleVouchesNothing(Value(), node.Value(), now);
      ranges, coverage := Ranges(0, 0), false;
      var scanner := CachedRange(now);
      if !IsFresh(node.Value(), now) {
        return;
      }
      var packet := node.packet;
      var fixed := packet.FixedHealthy() && ValidRange(packet.fixedMm, FIXED_MAX_MM)
                   && SampleAgeMs(node.Value(), now, packet.fixedMs) <= STALE_MS;
      if scanner.Some? {
        ranges := Included(ranges, scanner.value, SCANNER_MAX_MM);
      }
      if fixed {
        ranges := Included(ranges, packet.fixedMm, FIXED_MAX_MM);
      }
      coverage := scanner.Some? && fixed && ranges.count >= MINIMUM_RANGES;
    }
  }
}
