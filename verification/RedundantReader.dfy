/** Merging the packets of independent links, either of which may fail and be reopened. */
module RedundantReader {
  import opened Options

  /** What opening a source would do now, and what polling its reader would. */
  datatype Opening = Opens | Refuses(error: string)
  datatype Reading<T> = Packets(packets: seq<T>) | Fails(error: string)

  datatype Source = Source(open: bool, retryAt: real, lastError: Option<string>, lastPacketAt: Option<real>)

  const FRESH := Source(false, 0.0, None, None)

  /** The source after a poll reached the reader, and after one that did not. */
  function AfterOpening(source: Source, now: real, opening: Opening, reconnect: real): Source {
    if source.open || now < source.retryAt then source
    else
      match opening
      case Opens => source.(open := true, lastError := None)
      case Refuses(error) => source.(lastError := Some(error), retryAt := now + reconnect)
  }

  function AfterReading<T>(source: Source, now: real, reading: Reading<T>, reconnect: real): Source {
    if !source.open then source
    else
      match reading
      case Packets(packets) =>
        if packets == [] then source else source.(lastPacketAt := Some(now), lastError := None)
      case Fails(error) => source.(lastError := Some(error), open := false, retryAt := now + reconnect)
  }

  /** What a source contributes to the poll. */
  function Contribution<T>(source: Source, reading: Reading<T>): seq<T> {
    if source.open && reading.Packets? then reading.packets else []
  }

  /** What a poll makes of one source, if the reader is open: it is opened when it is closed and its time to retry has
      come; it gives its packets when it is open then; an error closes it or leaves it closed until later, and is shown
      until it opens or gives a packet. */
  lemma SourceExactly<T>(source: Source, now: real, opening: Opening, reading: Reading<T>, reconnect: real)
    ensures var ready := AfterOpening(source, now, opening, reconnect);
            var after := AfterReading(ready, now, reading, reconnect);
            var tries := !source.open && source.retryAt <= now;
            var usable := source.open || (tries && opening.Opens?);
            var gives, fails := usable && reading.Packets? && reading.packets != [], usable && reading.Fails?;
            && Contribution(ready, reading) == (if gives then reading.packets else [])
            && after.open == (usable && !fails)
            && after.retryAt == (if fails || (tries && opening.Refuses?) then now + reconnect else source.retryAt)
            && after.lastPacketAt == (if gives then Some(now) else source.lastPacketAt)
            && after.lastError == (if fails then Some(reading.error)
                                   else if gives || (tries && opening.Opens?) then None
                                   else if tries then Some(opening.error)
                                   else source.lastError)
  {
  }

  // ---------------------------------------------------------------------------
  // Interleavings
  // ---------------------------------------------------------------------------

  /** The elements of the merged sequence that came from one source, in their order. */
  function From<T>(merged: seq<T>, origins: seq<nat>, source: nat): seq<T>
    requires |merged| == |origins|
  {
    if merged == [] then []
    else From(merged[..|merged| - 1], origins[..|origins| - 1], source)
         + if origins[|origins| - 1] == source then [merged[|merged| - 1]] else []
  }

  /** Every merged element has a source, and each source's elements are in its own order, none lost or added. */
  ghost predicate Interleaves<T>(merged: seq<T>, origins: seq<nat>, streams: seq<seq<T>>) {
    && |merged| == |origins|
    && (forall i | 0 <= i < |origins| :: origins[i] < |streams|)
    && (forall s | 0 <= s < |streams| :: From(merged, origins, s) == streams[s])
  }

  function Repeated(source: nat, n: nat): (r: seq<nat>)
    ensures |r| == n && forall i | 0 <= i < n :: r[i] == source
  {
    seq(n, _ => source)
  }

  lemma {:induction false} FromAppends<T>(merged: seq<T>, origins: seq<nat>, more: seq<T>, source: nat, s: nat)
    requires |merged| == |origins|
    ensures From(merged + more, origins + Repeated(source, |more|), s)
         == From(merged, origins, s) + if s == source then more else []
    decreases |more|
  {
    if more == [] {
      assert merged + more == merged && origins + Repeated(source, 0) == origins;
    } else {
      var init, last := more[..|more| - 1], more[|more| - 1];
      FromAppends(merged, origins, init, source, s);
      assert (merged + more)[..|merged + more| - 1] == merged + init;
      assert (origins + Repeated(source, |more|))[..|merged + more| - 1] == origins + Repeated(source, |init|);
      assert more == init + [last];
    }
  }

  /** One more batch from one source. */
  lemma BatchInterleaves<T>(merged: seq<T>, origins: seq<nat>, streams: seq<seq<T>>, batch: seq<T>, source: nat)
    requires Interleaves(merged, origins, streams) && source < |streams|
    ensures Interleaves(merged + batch, origins + Repeated(source, |batch|), streams[source := streams[source] + batch])
  {
    forall s | 0 <= s < |streams|
      ensures From(merged + batch, origins + Repeated(source, |batch|), s) == streams[source := streams[source] + batch][s]
    {
      FromAppends(merged, origins, batch, source, s);
    }
  }

  // ---------------------------------------------------------------------------
  // The reader
  // ---------------------------------------------------------------------------

  class RedundantTelemetryReader<T(==)> {
    const sources: array<Source>
    const reconnect: real
    var closed: bool
    /** Everything returned, where it came from, and what each source gave. */
    ghost var merged: seq<T>
    ghost var origins: seq<nat>
    ghost var streams: seq<seq<T>>

    ghost predicate Valid()
      reads this
    {
      sources.Length == |streams| > 0 && Interleaves(merged, origins, streams)
    }

    constructor (count: nat, reconnect: real)
      requires count > 0
      ensures Valid() && fresh(sources) && sources.Length == count && !closed
      ensures merged == [] && forall i | 0 <= i < count :: sources[i] == FRESH
    {
      sources := new Source[count](_ => FRESH);
      this.reconnect := reconnect;
      closed := false;
      merged, origins, streams := [], [], seq(count, _ => []);
    }

    /** The packets of all usable sources, source by source; what happens to one source depends on that
        source alone, so a failure of another neither loses nor delays its packets. */
    method Poll(now: real, openings: seq<Opening>, readings: seq<Reading<T>>) returns (packets: seq<T>)
      requires Valid() && |openings| == |readings| == sources.Length
      modifies this, sources
      ensures Valid() && closed == old(closed)
      ensures merged == old(merged) + packets && |streams| == |old(streams)|
      ensures forall i | 0 <= i < sources.Length ::
                var ready := AfterOpening(old(sources[i]), now, openings[i], reconnect);
                if closed then sources[i] == old(sources[i]) && streams[i] == old(streams[i])
                else
                  && sources[i] == AfterReading(ready, now, readings[i], reconnect)
                  && streams[i] == old(streams[i]) + Contribution(ready, readings[i])
      ensures closed ==> packets == []
    {
      hide Interleaves;
      packets := [];
      if closed {
        return;
      }
      for i := 0 to sources.Length
        invariant Valid() && closed == old(closed)
        invariant merged == old(merged) + packets && |streams| == |old(streams)|
        invariant forall j | 0 <= j < i ::
                    var ready := AfterOpening(old(sources[j]), now, openings[j], reconnect);
                    && sources[j] == AfterReading(ready, now, readings[j], reconnect)
                    && streams[j] == old(streams[j]) + Contribution(ready, readings[j])
        invariant forall j | i <= j < sources.Length :: sources[j] == old(sources[j]) && streams[j] == old(streams[j])
      {
        var state := sources[i];
        if !state.open && now >= state.retryAt {
          match openings[i] {
            case Opens =>
              state := state.(open := true, lastError := None);
            case Refuses(error) =>
              sources[i] := state.(lastError := Some(error), retryAt := now + reconnect);
              continue;
          }
        }
        if !state.open {
          continue;
        }
        match readings[i] {
          case Packets(batch) =>
            if batch != [] {
              state := state.(lastPacketAt := Some(now), lastError := None);
              packets := packets + batch;
              Take(batch, i);
            }
          case Fails(error) =>
            state := state.(lastError := Some(error), open := false, retryAt := now + reconnect);
        }
        sources[i] := state;
      }
    }

    /** Book a batch of one source. */
    ghost method Take(batch: seq<T>, source: nat)
      requires Valid() && source < |streams|
      modifies this`merged, this`origins, this`streams
      ensures Valid()
      ensures merged == old(merged) + batch
      ensures streams == old(streams)[source := old(streams[source]) + batch]
    {
      BatchInterleaves(merged, origins, streams, batch, source);
      merged := merged + batch;
      origins := origins + Repeated(source, |batch|);
      streams := streams[source := streams[source] + batch];
    }

    method Close()
      modifies this, sources
      requires Valid()
      ensures Valid() && closed && merged == old(merged) && streams == old(streams)
      ensures forall i | 0 <= i < sources.Length ::
                sources[i] == if old(closed) then old(sources[i]) else old(sources[i]).(open := false)
    {
      if closed {
        return;
      }
      closed := true;
      for i := 0 to sources.Length
        invariant Valid() && closed && merged == old(merged) && streams == old(streams)
        invariant forall j | 0 <= j < i :: sources[j] == old(sources[j]).(open := false)
        invariant forall j | i <= j < sources.Length :: sources[j] == old(sources[j])
      {
        sources[i] := sources[i].(open := false);
      }
    }
  }
}
