/** Both links together: what the merged stream of in-order links is accepted as. */
module LinkDedup {
  import opened Options
  import opened RedundantReader
  import opened StreamDedup

  lemma {:induction false} MergedIsFromItsSource<T>(merged: seq<T>, origins: seq<nat>, i: nat)
    requires |merged| == |origins| && i < |merged|
    ensures merged[i] in From(merged, origins, origins[i])
  {
    if i < |merged| - 1 {
      MergedIsFromItsSource(merged[..|merged| - 1], origins[..|origins| - 1], i);
    }
  }

  /** The frames behind the packets. */
  predicate Carries(boot: seq<Frame>, packets: seq<Packet>, arrivals: seq<nat>) {
    Arrivals(boot, arrivals) && packets == Received(boot, true, arrivals)
  }

  lemma OnWireTellsApart(boot: seq<Frame>, i: nat, j: nat)
    requires IsBoot(boot) && i < |boot| && j < |boot|
    requires OnWire(boot[i], true) == OnWire(boot[j], true)
    ensures i == j
  {
    hide OnWire, Newer;
    NewerIsLater(boot, true, i, j);
    NewerIsLater(boot, true, j, i);
    NewerIsLater(boot, true, i, i);
  }

  lemma {:induction false} ReceivedTellsApart(boot: seq<Frame>, a: seq<nat>, b: seq<nat>)
    requires Arrivals(boot, a) && Arrivals(boot, b)
    requires Received(boot, true, a) == Received(boot, true, b)
    ensures a == b
  {
    hide OnWire, IsBoot;
    var p, q := Received(boot, true, a), Received(boot, true, b);
    assert |p| == |q|;
    forall k | 0 <= k < |a| ensures a[k] == b[k] {
      assert p[k] == q[k];
      OnWireTellsApart(boot, a[k], b[k]);
    }
  }

  lemma {:induction false} FromCarries(boot: seq<Frame>, arrivals: seq<nat>, origins: seq<nat>, s: nat)
    requires Arrivals(boot, arrivals) && |arrivals| == |origins|
    ensures Arrivals(boot, From(arrivals, origins, s))
    ensures From(Received(boot, true, arrivals), origins, s) == Received(boot, true, From(arrivals, origins, s))
  {
    hide OnWire, IsBoot;
    if arrivals != [] {
      var init, last := arrivals[..|arrivals| - 1], arrivals[|arrivals| - 1];
      var before := origins[..|origins| - 1];
      FromCarries(boot, init, before, s);
      assert Received(boot, true, arrivals)[..|arrivals| - 1] == Received(boot, true, init);
      assert From(arrivals, origins, s) == From(init, before, s) + if origins[|origins| - 1] == s then [last] else [];
    }
  }

  /** The frames that the merged packets carry are an interleaving of the frames each link carried. */
  lemma MergedCarries(boot: seq<Frame>, merged: seq<Packet>, origins: seq<nat>, streams: seq<seq<Packet>>, links: seq<seq<nat>>)
    returns (arrivals: seq<nat>)
    requires IsBoot(boot) && Interleaves(merged, origins, streams) && |links| == |streams|
    requires forall s | 0 <= s < |links| :: Carries(boot, streams[s], links[s])
    ensures Carries(boot, merged, arrivals) && Interleaves(arrivals, origins, links)
  {
    hide OnWire, IsBoot;
    arrivals := [];
    for i := 0 to |merged|
      invariant |arrivals| == i
      invariant forall j | 0 <= j < i :: arrivals[j] < |boot| && merged[j] == OnWire(boot[arrivals[j]], true)
    {
      MergedIsFromItsSource(merged, origins, i);
      var stream, link := streams[origins[i]], links[origins[i]];
      assert Carries(boot, stream, link);
      var k :| 0 <= k < |stream| && stream[k] == merged[i];
      arrivals := arrivals + [link[k]];
    }
    assert merged == Received(boot, true, arrivals);
    forall s | 0 <= s < |links| ensures From(arrivals, origins, s) == links[s] {
      FromCarries(boot, arrivals, origins, s);
      assert Carries(boot, streams[s], links[s]);
      ReceivedTellsApart(boot, From(arrivals, origins, s), links[s]);
    }
  }

  /** However the reader's polls and the links' failures fall, with every link in order: the frames arrive as
      some interleaving of the links, each is accepted at most once and only when later than all before it, and
      the last accepted is always the newest received. */
  lemma LinksAreDeduplicated(reader: RedundantTelemetryReader<Packet>, boot: seq<Frame>, links: seq<seq<nat>>, staleMs: int)
    returns (arrivals: seq<nat>)
    requires reader.Valid() && IsBoot(boot) && NumbersAreHigh(boot) && |links| == |reader.streams|
    requires forall s | 0 <= s < |links| :: InOrder(links[s]) && Carries(boot, reader.streams[s], links[s])
    ensures |arrivals| == |reader.merged| && Carries(boot, reader.merged, arrivals)
    ensures Interleaves(arrivals, reader.origins, links)
    ensures forall k | 0 <= k < |arrivals| :: AcceptedAt(reader.merged, k, staleMs) <==> IsNewest(arrivals, k)
    ensures arrivals != [] ==>
              Newest(arrivals) < |boot| && RunGate(reader.merged, staleMs) == Gate(Some(OnWire(boot[Newest(arrivals)], true)))
  {
    hide IsBoot, OnWire, AcceptedAt, IsNewest, RunGate, Interleaves, NumbersAreHigh;
    arrivals := MergedCarries(boot, reader.merged, reader.origins, reader.streams, links);
    HighNumbersAreDeduplicated(boot, arrivals, staleMs);
  }
}
