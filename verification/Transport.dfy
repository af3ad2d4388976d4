/** From the controller's transmit ring to the lines read at the other end. */
module Transport {
  import opened LineReassembly
  import opened TransmitQueue

  lemma {:induction false} WireAppends(a: seq<seq<byte>>, b: seq<seq<byte>>)
    ensures Wire(a + b) == Wire(a) + Wire(b)
    decreases |b|
  {
    hide Wire;
    if b == [] {
      assert a + b == a;
      NothingOnWire();
    } else {
      var init, last := b[..|b| - 1], b[|b| - 1];
      assert b == init + [last];
      assert a + b == (a + init) + [last];
      WireAppends(a, init);
      WireGrows(a + init, last);
      WireGrows(init, last);
    }
  }

  /** The stream ends inside line k, or is complete. */
  predicate EndsIn(stream: seq<byte>, lines: seq<seq<byte>>, k: nat) {
    && k <= |lines|
    && Wire(lines[..k]) <= stream
    && (k < |lines| ==> |stream| < |Wire(lines[..k + 1])|)
  }

  lemma {:induction false} PrefixSplits(lines: seq<seq<byte>>, stream: seq<byte>)
    requires forall i | 0 <= i < |lines| :: NEWLINE !in lines[i]
    requires stream <= Wire(lines)
    ensures var k := |Closed(stream)|;
            && k <= |lines| && Closed(stream) == lines[..k]
            && Open(stream) <= (if k < |lines| then lines[k] else [])
            && EndsIn(stream, lines, k)
    decreases |lines|
  {
    hide Wire, Closed, Open;
    if lines == [] {
      NothingOnWire();
      NothingSplits();
      assert lines[..0] == [];
    } else {
      var init, last := lines[..|lines| - 1], lines[|lines| - 1];
      assert lines == init + [last];
      WireGrows(init, last);
      if |stream| < |Wire(init)| {
        PrefixSplits(init, stream);
        EndsSooner(init, last, stream, |Closed(stream)|);
      } else {
        var part := stream[|Wire(init)|..];
        assert stream == Wire(init) + part && part <= last + [NEWLINE];
        if part == last + [NEWLINE] {
          SplitIsUnique(lines, []);
          assert Wire(lines) + [] == Wire(lines) == stream;
          assert lines[..|lines|] == lines;
        } else {
          assert part <= last;
          SplitIsUnique(init, part);
          assert lines[..|init|] == init && lines[..|init| + 1] == lines;
        }
      }
    }
  }

  lemma EndsSooner(init: seq<seq<byte>>, last: seq<byte>, stream: seq<byte>, k: nat)
    requires EndsIn(stream, init, k) && |stream| < |Wire(init)|
    ensures k < |init| && EndsIn(stream, init + [last], k)
  {
    hide Wire;
    assert (init + [last])[..k] == init[..k];
    assert init[..|init|] == init;
    if k < |init| {
      assert (init + [last])[..k + 1] == init[..k + 1];
    }
  }

  /** However much of the written lines has arrived, exactly the complete ones are delivered, in order,
      and none is thrown away. */
  lemma ArrivedLinesDelivered(lines: seq<seq<byte>>, stream: seq<byte>, maximum: nat)
    requires AllClean(lines, maximum) && stream <= Wire(lines)
    ensures Lines(stream, maximum) <= lines
    ensures EndsIn(stream, lines, |Lines(stream, maximum)|)
    ensures Discarded(stream, maximum) == 0
  {
    hide Wire, Closed, Open, Deliveries, TooLong;
    PrefixSplits(lines, stream);
    CleanLinesDelivered(Closed(stream), maximum);
    assert |Open(stream)| <= maximum;
  }

  lemma {:induction false} WireIsLonger(lines: seq<seq<byte>>, j: nat, k: nat)
    requires j <= k <= |lines|
    ensures |Wire(lines[..j])| <= |Wire(lines[..k])|
  {
    hide Wire;
    assert lines[..k] == lines[..j] + lines[j..k];
    WireAppends(lines[..j], lines[j..k]);
  }

  /** The stream ends in one line only. */
  lemma EndsInOne(stream: seq<byte>, lines: seq<seq<byte>>, j: nat, k: nat)
    requires EndsIn(stream, lines, j) && EndsIn(stream, lines, k)
    ensures j == k
  {
    hide Wire;
    if j < k {
      WireIsLonger(lines, j + 1, k);
    } else if k < j {
      WireIsLonger(lines, k + 1, j);
    }
  }

  /** The port has taken a prefix of the accepted lines, each followed by a newline, and is inside the
      first line still queued. */
  lemma WrittenIsPrefix(frames: seq<Frame>, head: nat, count: nat, accepted: seq<seq<byte>>, written: seq<byte>)
    requires Ring(frames, head, count, accepted, written)
    ensures written <= Wire(accepted) && EndsIn(written, accepted, |accepted| - count)
  {
    hide Wire, Queued, EndsIn;
    var n := |accepted| - count;
    if count > 0 {
      HeadHolds(frames, head, count, accepted);
      PartialIsPrefix(accepted, n, frames[head].Written(), frames[head].Unwritten());
    } else {
      AllSent(accepted);
      assert written == Wire(accepted[..n]);
    }
  }

  lemma AllSent(accepted: seq<seq<byte>>)
    ensures accepted[..|accepted|] == accepted
    ensures EndsIn(Wire(accepted), accepted, |accepted|)
  {
    assert accepted[..|accepted|] == accepted;
  }

  lemma PartialIsPrefix(lines: seq<seq<byte>>, n: nat, begun: seq<byte>, left: seq<byte>)
    requires n < |lines| && begun + left == lines[n] + [NEWLINE] && left != []
    ensures Wire(lines[..n]) + begun <= Wire(lines)
    ensures EndsIn(Wire(lines[..n]) + begun, lines, n)
  {
    hide Wire;
    var sent, more := lines[..n], lines[..n + 1];
    assert more == sent + [lines[n]];
    HeadIsPartial(begun, left, lines[n], sent);
    WirePrefix(lines, n + 1);
    PrefixesChain(Wire(sent) + begun, Wire(more), Wire(lines));
    StartsWithFirst(Wire(sent), begun);
  }

  lemma PrefixesChain(a: seq<byte>, b: seq<byte>, c: seq<byte>)
    requires a <= b && b <= c
    ensures a <= c
  {
  }

  lemma StartsWithFirst(a: seq<byte>, b: seq<byte>)
    ensures a <= a + b
  {
  }

  lemma WirePrefix(lines: seq<seq<byte>>, k: nat)
    requires k <= |lines|
    ensures Wire(lines[..k]) <= Wire(lines)
  {
    hide Wire;
    assert lines == lines[..k] + lines[k..];
    WireAppends(lines[..k], lines[k..]);
  }

  lemma HeadIsPartial(begun: seq<byte>, left: seq<byte>, line: seq<byte>, sent: seq<seq<byte>>)
    requires begun + left == line + [NEWLINE] && left != []
    ensures Wire(sent) + begun <= Wire(sent + [line])
    ensures |Wire(sent) + begun| < |Wire(sent + [line])|
  {
    hide Wire;
    WireGrows(sent, line);
    assert Wire(sent + [line]) == Wire(sent) + (line + [NEWLINE]);
    assert Wire(sent + [line]) == Wire(sent) + (begun + left);
  }

  predicate Plain(line: seq<byte>) {
    NEWLINE !in line && (line != [] ==> line[|line| - 1] != CARRIAGE_RETURN)
  }

  /** End to end, at any point of any run: when some prefix of what was written has arrived, the lines
      delivered are accepted lines in order; when all of it has, they are exactly the lines sent. */
  lemma DeliveredLinesAreSentLines(queue: SerialTxQueue, buffer: BoundedLineBuffer)
    requires queue.Valid() && buffer.Valid()
    requires buffer.stream <= queue.written && LINE_CAPACITY <= buffer.maximumBytes
    requires forall i | 0 <= i < |queue.accepted| :: Plain(queue.accepted[i])
    ensures buffer.discardedLines == 0
    ensures Lines(buffer.stream, buffer.maximumBytes) <= queue.accepted[..|queue.accepted| - queue.count]
    ensures buffer.stream == queue.written ==>
              Lines(buffer.stream, buffer.maximumBytes) == queue.accepted[..|queue.accepted| - queue.count]
  {
    hide Ring, Lines, Wire, Discarded, Open;
    queue.RingShape();
    WrittenIsPrefix(queue.frames[..], queue.head, queue.count, queue.accepted, queue.written);
    ArrivedLinesDelivered(queue.accepted, buffer.stream, buffer.maximumBytes);
    var sent, k := |queue.accepted| - queue.count, |Lines(buffer.stream, buffer.maximumBytes)|;
    if sent < k {
      WireIsLonger(queue.accepted, sent + 1, k);
      assert false;
    }
    if buffer.stream == queue.written {
      EndsInOne(buffer.stream, queue.accepted, sent, k);
    }
  }
}
