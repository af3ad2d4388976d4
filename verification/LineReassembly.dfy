/** Splitting received bytes into lines: `BoundedLineBuffer.feed` consumes chunks of any
    size and returns the lines completed so far, dropping every line that is too long. */
module LineReassembly {
  newtype byte = x: int | 0 <= x < 256

  const NEWLINE: byte := 10
  const CARRIAGE_RETURN: byte := 13
  const MAX_WIRE_LINE_BYTES := 4096

  // ---------------------------------------------------------------------------
  // What a stream of bytes says
  // ---------------------------------------------------------------------------

  /** The stretches of the stream closed by a newline, without it. */
  function Closed(stream: seq<byte>): seq<seq<byte>> {
    if stream == [] then []
    else
      var before := stream[..|stream| - 1];
      if stream[|stream| - 1] == NEWLINE then Closed(before) + [Open(before)] else Closed(before)
  }

  /** What follows the last newline. */
  function Open(stream: seq<byte>): seq<byte> {
    if stream == [] || stream[|stream| - 1] == NEWLINE then []
    else Open(stream[..|stream| - 1]) + [stream[|stream| - 1]]
  }

  /** The line without the carriage returns that end it. */
  function Stripped(line: seq<byte>): (r: seq<byte>)
    ensures r <= line
    ensures r != [] ==> r[|r| - 1] != CARRIAGE_RETURN
    ensures forall i | |r| <= i < |line| :: line[i] == CARRIAGE_RETURN
  {
    if line != [] && line[|line| - 1] == CARRIAGE_RETURN then Stripped(line[..|line| - 1]) else line
  }

  /** What one closed stretch delivers: nothing when it is empty or too long. */
  function Delivery(stretch: seq<byte>, maximum: nat): seq<seq<byte>> {
    if stretch == [] || |stretch| > maximum then [] else [Stripped(stretch)]
  }

  function Deliveries(stretches: seq<seq<byte>>, maximum: nat): seq<seq<byte>> {
    if stretches == [] then []
    else Deliveries(stretches[..|stretches| - 1], maximum) + Delivery(stretches[|stretches| - 1], maximum)
  }

  /** The lines a stream holds. */
  function Lines(stream: seq<byte>, maximum: nat): seq<seq<byte>> { Deliveries(Closed(stream), maximum) }

  function TooLong(stretches: seq<seq<byte>>, maximum: nat): nat {
    if stretches == [] then 0
    else TooLong(stretches[..|stretches| - 1], maximum)
         + if |stretches[|stretches| - 1]| > maximum then 1 else 0
  }

  /** Each stretch over the limit, closed or not, is counted once. */
  function Discarded(stream: seq<byte>, maximum: nat): nat {
    TooLong(Closed(stream), maximum) + if |Open(stream)| > maximum then 1 else 0
  }

  lemma ByteArrives(stream: seq<byte>, b: byte)
    ensures b == NEWLINE ==> Closed(stream + [b]) == Closed(stream) + [Open(stream)] && Open(stream + [b]) == []
    ensures b != NEWLINE ==> Closed(stream + [b]) == Closed(stream) && Open(stream + [b]) == Open(stream) + [b]
  {
    assert (stream + [b])[..|stream + [b]| - 1] == stream;
  }

  lemma StretchCloses(stretches: seq<seq<byte>>, last: seq<byte>, maximum: nat)
    ensures Deliveries(stretches + [last], maximum) == Deliveries(stretches, maximum) + Delivery(last, maximum)
    ensures TooLong(stretches + [last], maximum)
         == TooLong(stretches, maximum) + if |last| > maximum then 1 else 0
  {
    assert (stretches + [last])[..|stretches + [last]| - 1] == stretches;
  }

  // ---------------------------------------------------------------------------
  // The buffer
  // ---------------------------------------------------------------------------

  class BoundedLineBuffer {
    const maximumBytes: nat
    var buffer: seq<byte>
    var discarding: bool
    var discardedLines: nat
    /** Every byte ever fed. */
    ghost var stream: seq<byte>

    ghost predicate Valid()
      reads this
    {
      && discarding == (|Open(stream)| > maximumBytes)
      && buffer == (if discarding then [] else Open(stream))
      && discardedLines == Discarded(stream, maximumBytes)
    }

    constructor (maximumBytes: nat := MAX_WIRE_LINE_BYTES)
      ensures Valid() && stream == [] && this.maximumBytes == maximumBytes
    {
      this.maximumBytes := maximumBytes;
      buffer, discarding, discardedLines, stream := [], false, 0, [];
    }

    /** The lines returned are those the longer stream holds beyond the ones already returned. */
    method Feed(chunk: seq<byte>) returns (lines: seq<seq<byte>>)
      requires Valid()
      modifies this
      ensures Valid()
      ensures stream == old(stream) + chunk
      ensures |buffer| <= maximumBytes
      ensures Lines(stream, maximumBytes) == Lines(old(stream), maximumBytes) + lines
    {
      hide Lines, Open, Discarded;
      lines := [];
      assert stream == old(stream) + chunk[..0];
      for i := 0 to |chunk|
        invariant Valid()
        invariant stream == old(stream) + chunk[..i]
        invariant Lines(stream, maximumBytes) == Lines(old(stream), maximumBytes) + lines
      {
        var line := TakeByte(chunk[i]);
        lines := lines + line;
        assert chunk[..i + 1] == chunk[..i] + [chunk[i]];
      }
      assert chunk[..|chunk|] == chunk;
    }

    /** One byte of the chunk: the body of the loop in `feed`. */
    method TakeByte(b: byte) returns (line: seq<seq<byte>>)
      requires Valid()
      modifies this
      ensures Valid()
      ensures stream == old(stream) + [b]
      ensures Lines(stream, maximumBytes) == Lines(old(stream), maximumBytes) + line
    {
      hide Stripped, Closed, Open, Deliveries, TooLong;
      ByteArrives(stream, b);
      StretchCloses(Closed(stream), Open(stream), maximumBytes);
      line := [];
      if b == NEWLINE {
        OpensEmpty(stream + [b]);
        if discarding {
          discarding := false;
          buffer := [];
        } else {
          if buffer != [] {
            line := [Stripped(buffer)];
          }
          buffer := [];
        }
      } else if discarding {
      } else if |buffer| >= maximumBytes {
        buffer := [];
        discarding := true;
        discardedLines := discardedLines + 1;
      } else {
        buffer := buffer + [b];
      }
      stream := stream + [b];
    }
  }

  lemma OpensEmpty(stream: seq<byte>)
    requires stream != [] && stream[|stream| - 1] == NEWLINE
    ensures Open(stream) == []
  {
  }

  // ---------------------------------------------------------------------------
  // The split is the only one
  // ---------------------------------------------------------------------------

  /** The stretches with a newline after each. */
  function Wire(stretches: seq<seq<byte>>): seq<byte> {
    if stretches == [] then [] else Wire(stretches[..|stretches| - 1]) + stretches[|stretches| - 1] + [NEWLINE]
  }

  lemma WireGrows(stretches: seq<seq<byte>>, last: seq<byte>)
    ensures Wire(stretches + [last]) == Wire(stretches) + last + [NEWLINE]
  {
    assert (stretches + [last])[..|stretches + [last]| - 1] == stretches;
  }

  /** Nothing is lost or invented by the split, and no stretch holds a newline. */
  lemma {:induction false} SplitIsFaithful(stream: seq<byte>)
    ensures Wire(Closed(stream)) + Open(stream) == stream
    ensures NEWLINE !in Open(stream)
    ensures forall i | 0 <= i < |Closed(stream)| :: NEWLINE !in Closed(stream)[i]
  {
    hide Wire;
    if stream == [] {
      NothingOnWire();
    } else {
      var before, b := stream[..|stream| - 1], stream[|stream| - 1];
      assert stream == before + [b];
      SplitIsFaithful(before);
      ByteArrives(before, b);
      WireGrows(Closed(before), Open(before));
    }
  }

  lemma NothingOnWire()
    ensures Wire([]) == []
  {
  }

  lemma {:induction false} TailStaysOpen(stream: seq<byte>, tail: seq<byte>)
    requires NEWLINE !in tail
    ensures Closed(stream + tail) == Closed(stream) && Open(stream + tail) == Open(stream) + tail
    decreases |tail|
  {
    hide Closed, Open;
    if tail == [] {
      assert stream + tail == stream;
    } else {
      var before, b := tail[..|tail| - 1], tail[|tail| - 1];
      assert stream + tail == (stream + before) + [b];
      TailStaysOpen(stream, before);
      ByteArrives(stream + before, b);
    }
  }

  /** Any way to write a stream as newline-free stretches and a newline-free rest is the split. */
  lemma {:induction false} SplitIsUnique(stretches: seq<seq<byte>>, rest: seq<byte>)
    requires forall i | 0 <= i < |stretches| :: NEWLINE !in stretches[i]
    requires NEWLINE !in rest
    ensures Closed(Wire(stretches) + rest) == stretches
    ensures Open(Wire(stretches) + rest) == rest
    decreases |stretches|, |rest|
  {
    hide Closed, Open, Wire;
    if rest != [] {
      SplitIsUnique(stretches, []);
      assert Wire(stretches) + [] == Wire(stretches);
      TailStaysOpen(Wire(stretches), rest);
    } else if stretches == [] {
      NothingOnWire();
      NothingSplits();
      assert Wire(stretches) + rest == [];
    } else {
      var init, last := stretches[..|stretches| - 1], stretches[|stretches| - 1];
      assert stretches == init + [last];
      WireGrows(init, last);
      SplitIsUnique(init, last);
      assert Wire(stretches) + rest == (Wire(init) + last) + [NEWLINE];
      ByteArrives(Wire(init) + last, NEWLINE);
    }
  }

  lemma NothingSplits()
    ensures Closed([]) == [] && Open([]) == []
  {
  }

  // ---------------------------------------------------------------------------
  // Chunks do not matter
  // ---------------------------------------------------------------------------

  lemma {:induction false} LinesGrow(stream: seq<byte>, more: seq<byte>, maximum: nat)
    ensures Lines(stream, maximum) <= Lines(stream + more, maximum)
    ensures Discarded(stream, maximum) <= Discarded(stream + more, maximum)
    decreases |more|
  {
    hide Closed, Open, Deliveries, TooLong, Delivery;
    if more == [] {
      assert stream + more == stream;
    } else {
      var before, b := more[..|more| - 1], more[|more| - 1];
      assert stream + more == (stream + before) + [b];
      LinesGrow(stream, before, maximum);
      ByteArrives(stream + before, b);
      StretchCloses(Closed(stream + before), Open(stream + before), maximum);
    }
  }

  /** What feeding a chunk after a stream returns, as the contract of `Feed` fixes it. */
  function Fed(stream: seq<byte>, chunk: seq<byte>, maximum: nat): (lines: seq<seq<byte>>)
    ensures Lines(stream + chunk, maximum) == Lines(stream, maximum) + lines
  {
    LinesGrow(stream, chunk, maximum);
    Lines(stream + chunk, maximum)[|Lines(stream, maximum)|..]
  }

  function Concat(chunks: seq<seq<byte>>): seq<byte> {
    if chunks == [] then [] else chunks[0] + Concat(chunks[1..])
  }

  /** All lines returned while the chunks are fed one after another. */
  function FedAll(stream: seq<byte>, chunks: seq<seq<byte>>, maximum: nat): seq<seq<byte>>
    decreases |chunks|
  {
    if chunks == [] then [] else Fed(stream, chunks[0], maximum) + FedAll(stream + chunks[0], chunks[1..], maximum)
  }

  /** However the bytes are cut into chunks, the lines returned are those of one big chunk. */
  lemma {:induction false} ChunksDoNotMatter(stream: seq<byte>, chunks: seq<seq<byte>>, maximum: nat)
    ensures FedAll(stream, chunks, maximum) == Fed(stream, Concat(chunks), maximum)
    decreases |chunks|
  {
    hide Lines, Fed;
    if chunks == [] {
      assert stream + Concat(chunks) == stream;
      assert Lines(stream, maximum) + [] == Lines(stream, maximum);
      FedIsFixed(stream, [], maximum, []);
    } else {
      ChunksDoNotMatter(stream + chunks[0], chunks[1..], maximum);
      var first := Fed(stream, chunks[0], maximum);
      var rest := Fed(stream + chunks[0], Concat(chunks[1..]), maximum);
      assert stream + Concat(chunks) == (stream + chunks[0]) + Concat(chunks[1..]);
      assert Lines(stream, maximum) + (first + rest) == (Lines(stream, maximum) + first) + rest;
      FedIsFixed(stream, Concat(chunks), maximum, first + rest);
    }
  }

  lemma FedIsFixed(stream: seq<byte>, chunk: seq<byte>, maximum: nat, lines: seq<seq<byte>>)
    requires Lines(stream + chunk, maximum) == Lines(stream, maximum) + lines
    ensures Fed(stream, chunk, maximum) == lines
  {
    hide Lines;
  }

  // ---------------------------------------------------------------------------
  // Which lines survive
  // ---------------------------------------------------------------------------

  predicate Clean(line: seq<byte>, maximum: nat) {
    && 0 < |line| <= maximum
    && 10 !in line
    && line[|line| - 1] != 13
  }

  predicate AllClean(lines: seq<seq<byte>>, maximum: nat) {
    forall i | 0 <= i < |lines| :: Clean(lines[i], maximum)
  }

  lemma CleanIsDelivered(line: seq<byte>, maximum: nat)
    requires Clean(line, maximum)
    ensures Delivery(line, maximum) == [line] && |line| <= maximum
  {
  }

  lemma {:induction false} CleanLinesDelivered(lines: seq<seq<byte>>, maximum: nat)
    requires AllClean(lines, maximum)
    ensures Deliveries(lines, maximum) == lines && TooLong(lines, maximum) == 0
  {
    hide Clean;
    if lines != [] {
      var init, last := lines[..|lines| - 1], lines[|lines| - 1];
      CleanLinesDelivered(init, maximum);
      CleanIsDelivered(last, maximum) by {
        assert Clean(lines[|lines| - 1], maximum);
      }
      assert init + [last] == lines;
    }
  }

  /** Every delivered line is free of newlines, no longer than the limit and does not end in a carriage return. */
  lemma {:induction false} DeliveredLinesAreTame(stretches: seq<seq<byte>>, maximum: nat)
    requires forall i | 0 <= i < |stretches| :: NEWLINE !in stretches[i]
    ensures |Deliveries(stretches, maximum)| <= |stretches|
    ensures forall i | 0 <= i < |Deliveries(stretches, maximum)| ::
              var line := Deliveries(stretches, maximum)[i];
              |line| <= maximum && NEWLINE !in line && (line != [] ==> line[|line| - 1] != CARRIAGE_RETURN)
  {
    if stretches != [] {
      DeliveredLinesAreTame(stretches[..|stretches| - 1], maximum);
    }
  }

  lemma {:induction false} EmptyStretchMissing(stretches: seq<seq<byte>>, maximum: nat, k: nat)
    requires k < |stretches| && stretches[k] == []
    ensures |Deliveries(stretches, maximum)| < |stretches|
  {
    var init := stretches[..|stretches| - 1];
    if k < |init| {
      EmptyStretchMissing(init, maximum, k);
    } else {
      AtMostOneEach(init, maximum);
    }
  }

  lemma {:induction false} AtMostOneEach(stretches: seq<seq<byte>>, maximum: nat)
    ensures |Deliveries(stretches, maximum)| <= |stretches|
  {
    if stretches != [] {
      AtMostOneEach(stretches[..|stretches| - 1], maximum);
    }
  }

  /** Lines written out and read back come back exactly when every one of them is clean. */
  lemma RecoversExactly(lines: seq<seq<byte>>, maximum: nat)
    ensures Lines(Wire(lines), maximum) == lines <==> AllClean(lines, maximum)
  {
    hide Wire, Closed, Open, Deliveries;
    var stream := Wire(lines);
    if AllClean(lines, maximum) {
      SplitIsUnique(lines, []);
      assert Wire(lines) + [] == Wire(lines);
      CleanLinesDelivered(lines, maximum);
    }
    if Lines(stream, maximum) == lines {
      SplitIsFaithful(stream);
      DeliveredLinesAreTame(Closed(stream), maximum);
      SplitIsUnique(lines, []);
      assert Wire(lines) + [] == Wire(lines);
      forall i | 0 <= i < |lines| ensures Clean(lines[i], maximum) {
        if lines[i] == [] {
          EmptyStretchMissing(lines, maximum, i);
        }
      }
    }
  }
}
