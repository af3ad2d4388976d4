/** The transmit ring of the controller: lines are queued whole and written out in
    whatever portions the port accepts. */
module TransmitQueue {
  import opened Clock
  import opened LineReassembly

  const LINE_CAPACITY := 2400
  const QUEUE_DEPTH := 3

  /** A slot of the ring; bytes past the length are left over from earlier lines. */
  datatype Frame = Frame(bytes: seq<byte>, length: nat, offset: nat) {
    predicate Sound() { |bytes| == LINE_CAPACITY && offset < length <= LINE_CAPACITY }

    function Written(): seq<byte>
      requires Sound()
    {
      bytes[..offset]
    }

    function Unwritten(): seq<byte>
      requires Sound()
    {
      bytes[offset..length]
    }
  }

  function Min(a: nat, b: nat): nat { if a < b then a else b }

  /** The slot k places after the head. */
  function Slot(head: nat, k: nat): (slot: nat)
    ensures slot < QUEUE_DEPTH
  {
    (head + k) % QUEUE_DEPTH
  }

  predicate Fits(line: seq<byte>) { 0 < |line| < LINE_CAPACITY - 1 }

  /** The slot k places after the head holds the line; only the head may be partly written. */
  predicate Holds(frame: Frame, line: seq<byte>, k: nat) {
    frame.Sound() && frame.Written() + frame.Unwritten() == line + [NEWLINE] && (k > 0 ==> frame.offset == 0)
  }

  // ---------------------------------------------------------------------------
  // The ring and the lines in it
  // ---------------------------------------------------------------------------

  predicate Shape(frames: seq<Frame>, head: nat, count: nat, accepted: seq<seq<byte>>) {
    && |frames| == QUEUE_DEPTH && head < QUEUE_DEPTH
    && count <= QUEUE_DEPTH && count <= |accepted|
    && (forall s | 0 <= s < QUEUE_DEPTH :: |frames[s].bytes| == LINE_CAPACITY)
  }

  /** The queued slots hold the last accepted lines in order. */
  predicate Queued(frames: seq<Frame>, head: nat, count: nat, accepted: seq<seq<byte>>)
    requires Shape(frames, head, count, accepted)
  {
    forall k | 0 <= k < count :: Holds(frames[Slot(head, k)], accepted[|accepted| - count + k], k)
  }

  /** The frame being written, when there is one. */
  predicate Busy(frames: seq<Frame>, head: nat, count: nat) {
    count > 0 && head < |frames| && frames[head].Sound()
  }

  /** All lines sent, then what the port has taken of the line at the head. */
  function Output(frames: seq<Frame>, head: nat, count: nat, accepted: seq<seq<byte>>): seq<byte>
    requires count <= |accepted|
  {
    Wire(accepted[..|accepted| - count]) + if Busy(frames, head, count) then frames[head].Written() else []
  }

  predicate Ring(frames: seq<Frame>, head: nat, count: nat, accepted: seq<seq<byte>>, written: seq<byte>) {
    && Shape(frames, head, count, accepted)
    && Queued(frames, head, count, accepted)
    && written == Output(frames, head, count, accepted)
  }

  /** The slot after the line and its newline are copied in. */
  function Filled(frame: Frame, line: seq<byte>): (r: Frame)
    requires |frame.bytes| == LINE_CAPACITY && Fits(line)
    ensures Holds(r, line, 1) && r.Written() == []
  {
    var r := Frame(line + [NEWLINE] + frame.bytes[|line| + 1..], |line| + 1, 0);
    assert r.Unwritten() == line + [NEWLINE];
    r
  }

  lemma HeadHolds(frames: seq<Frame>, head: nat, count: nat, accepted: seq<seq<byte>>)
    requires Shape(frames, head, count, accepted) && Queued(frames, head, count, accepted) && count > 0
    ensures Holds(frames[head], accepted[|accepted| - count], 0)
  {
    assert Holds(frames[Slot(head, 0)], accepted[|accepted| - count + 0], 0);
  }

  lemma EnqueueKeepsQueue(frames: seq<Frame>, head: nat, count: nat, accepted: seq<seq<byte>>, line: seq<byte>)
    requires Shape(frames, head, count, accepted) && Queued(frames, head, count, accepted)
    requires count < QUEUE_DEPTH && Fits(line)
    ensures var next := frames[Slot(head, count) := Filled(frames[Slot(head, count)], line)];
            Shape(next, head, count + 1, accepted + [line]) && Queued(next, head, count + 1, accepted + [line])
  {
    hide Holds;
    var slot := Slot(head, count);
    var frame := Filled(frames[slot], line);
    var next := frames[slot := frame];
    HoldsAnywhere(frame, line, count);
    forall k | 0 <= k < count + 1
      ensures Holds(next[Slot(head, k)], (accepted + [line])[|accepted| - count + k], k)
    {
      if k < count {
        assert Slot(head, k) != slot;
        assert Holds(frames[Slot(head, k)], accepted[|accepted| - count + k], k);
      }
    }
  }

  lemma HoldsAnywhere(frame: Frame, line: seq<byte>, k: nat)
    requires Holds(frame, line, 1)
    ensures Holds(frame, line, k) && |frame.bytes| == LINE_CAPACITY
  {
  }

  lemma EnqueueKeepsRing(frames: seq<Frame>, head: nat, count: nat, accepted: seq<seq<byte>>, written: seq<byte>, line: seq<byte>)
    requires Ring(frames, head, count, accepted, written)
    requires count < QUEUE_DEPTH && Fits(line)
    ensures Ring(frames[Slot(head, count) := Filled(frames[Slot(head, count)], line)], head, count + 1, accepted + [line], written)
  {
    hide Queued, Wire, Filled, Holds;
    EnqueueKeepsQueue(frames, head, count, accepted, line);
    assert (accepted + [line])[..|accepted| - count] == accepted[..|accepted| - count];
    if count == 0 {
      assert Slot(head, 0) == head;
    } else {
      assert Slot(head, count) != head;
    }
  }

  lemma PartKeepsQueue(frames: seq<Frame>, head: nat, count: nat, accepted: seq<seq<byte>>, next: Frame)
    requires Shape(frames, head, count, accepted) && Queued(frames, head, count, accepted) && count > 0
    requires Holds(next, accepted[|accepted| - count], 0)
    ensures var after := frames[head := next];
            Shape(after, head, count, accepted) && Queued(after, head, count, accepted)
  {
    hide Holds;
    var after := frames[head := next];
    HoldsFull(next, accepted[|accepted| - count]);
    forall k | 0 <= k < count ensures Holds(after[Slot(head, k)], accepted[|accepted| - count + k], k) {
      if k == 0 {
        assert Slot(head, 0) == head;
      } else {
        assert Slot(head, k) != head;
        assert Holds(frames[Slot(head, k)], accepted[|accepted| - count + k], k);
      }
    }
  }

  lemma HoldsFull(frame: Frame, line: seq<byte>)
    requires Holds(frame, line, 0)
    ensures |frame.bytes| == LINE_CAPACITY && frame.Sound()
  {
  }

  /** The port takes some of the line at the head and leaves some. */
  lemma PartKeepsRing(frames: seq<Frame>, head: nat, count: nat, accepted: seq<seq<byte>>, written: seq<byte>, sent: nat)
    requires Ring(frames, head, count, accepted, written) && count > 0
    requires frames[head].Sound() && sent < |frames[head].Unwritten()|
    ensures Ring(frames[head := frames[head].(offset := frames[head].offset + sent)], head, count, accepted,
                 written + frames[head].Unwritten()[..sent])
  {
    hide Wire, Queued;
    var frame := frames[head];
    var next := frame.(offset := frame.offset + sent);
    HeadHolds(frames, head, count, accepted);
    assert next.Written() == frame.Written() + frame.Unwritten()[..sent];
    assert next.Written() + next.Unwritten() == frame.Written() + frame.Unwritten();
    PartKeepsQueue(frames, head, count, accepted, next);
  }

  lemma RestKeepsQueue(frames: seq<Frame>, head: nat, count: nat, accepted: seq<seq<byte>>, spent: Frame)
    requires Shape(frames, head, count, accepted) && Queued(frames, head, count, accepted) && count > 0
    requires |spent.bytes| == LINE_CAPACITY
    ensures var after := frames[head := spent];
            && Shape(after, Slot(head, 1), count - 1, accepted)
            && Queued(after, Slot(head, 1), count - 1, accepted)
            && (count > 1 ==> after[Slot(head, 1)].offset == 0)
  {
    var after := frames[head := spent];
    forall k | 0 <= k < count - 1
      ensures Holds(after[Slot(Slot(head, 1), k)], accepted[|accepted| - (count - 1) + k], k)
    {
      assert Slot(Slot(head, 1), k) == Slot(head, k + 1) != head;
      assert Holds(frames[Slot(head, k + 1)], accepted[|accepted| - count + (k + 1)], k + 1);
    }
    if count > 1 {
      assert Slot(head, 1) != head;
      assert Holds(frames[Slot(head, 1)], accepted[|accepted| - count + 1], 1);
    }
  }

  lemma NothingWritten(frame: Frame)
    requires frame.Sound() && frame.offset == 0
    ensures frame.Written() == []
  {
  }

  /** The port takes the rest of the line at the head. */
  lemma RestKeepsRing(frames: seq<Frame>, head: nat, count: nat, accepted: seq<seq<byte>>, written: seq<byte>, spent: Frame)
    requires Ring(frames, head, count, accepted, written) && count > 0
    requires frames[head].Sound() && |spent.bytes| == LINE_CAPACITY
    ensures Ring(frames[head := spent], Slot(head, 1), count - 1, accepted, written + frames[head].Unwritten())
  {
    hide Wire, Queued;
    var after := frames[head := spent];
    HeadHolds(frames, head, count, accepted);
    RestKeepsQueue(frames, head, count, accepted, spent);
    var n := |accepted| - count;
    assert accepted[..n + 1] == accepted[..n] + [accepted[n]];
    WireGrows(accepted[..n], accepted[n]);
    calc {
      written + frames[head].Unwritten();
      Wire(accepted[..n]) + frames[head].Written() + frames[head].Unwritten();
      Wire(accepted[..n]) + (frames[head].Written() + frames[head].Unwritten());
      Wire(accepted[..n]) + (accepted[n] + [NEWLINE]);
      Wire(accepted[..n]) + accepted[n] + [NEWLINE];
      Wire(accepted[..n + 1]);
    }
    if Busy(after, Slot(head, 1), count - 1) {
      NothingWritten(after[Slot(head, 1)]);
    }
  }

  // ---------------------------------------------------------------------------
  // The queue
  // ---------------------------------------------------------------------------

  class SerialTxQueue {
    const frames: array<Frame>
    var head: nat
    var tail: nat
    var count: nat
    var droppedFrames: nat
    var sentFrames: nat
    /** The lines accepted, the calls refused and the bytes the port took, ever. */
    ghost var accepted: seq<seq<byte>>
    ghost var refused: nat
    ghost var written: seq<byte>

    ghost predicate Valid()
      reads this, frames
    {
      && Ring(frames[..], head, count, accepted, written)
      && tail == Slot(head, count)
      && sentFrames == (|accepted| - count) % WRAP
      && droppedFrames == refused % WRAP
      && forall i | 0 <= i < |accepted| :: Fits(accepted[i])
    }

    /** What the next poll would offer to a port that can take everything. */
    ghost function Offer(): seq<byte>
      reads this, frames
    {
      if head < frames.Length && Busy(frames[..], head, count) then frames[head].Unwritten() else []
    }

    constructor ()
      ensures Valid() && fresh(frames)
      ensures accepted == [] && refused == 0 && written == [] && count == 0
    {
      frames := new Frame[QUEUE_DEPTH](_ => Frame(seq(LINE_CAPACITY, _ => 0), 0, 0));
      head, tail, count, droppedFrames, sentFrames := 0, 0, 0, 0, 0;
      accepted, refused, written := [], 0, [];
    }

    /** A line is taken unless it is empty, too long or the ring is full; a refusal is counted. */
    method EnqueueLine(line: seq<byte>) returns (ok: bool)
      requires Valid()
      modifies this, frames
      ensures Valid()
      ensures ok <==> 0 < |line| && |line| + 1 < 2400 && old(count) < 3
      ensures accepted == if ok then old(accepted) + [line] else old(accepted)
      ensures count == old(count) + if ok then 1 else 0
      ensures refused == old(refused) + if ok then 0 else 1
      ensures written == old(written)
    {
      hide Ring;
      RingShape();
      if |line| == 0 || |line| + 1 >= LINE_CAPACITY || count >= QUEUE_DEPTH {
        droppedFrames := (droppedFrames + 1) % WRAP;
        refused := refused + 1;
        return false;
      }
      EnqueueKeepsRing(frames[..], head, count, accepted, written, line);
      frames[tail] := Filled(frames[tail], line);
      assert frames[..] == old(frames[..])[tail := frames[tail]];
      tail := (tail + 1) % QUEUE_DEPTH;
      count := count + 1;
      accepted := accepted + [line];
      ok := true;
    }

    lemma RingShape()
      requires Valid()
      ensures Shape(frames[..], head, count, accepted)
      ensures count > 0 ==> frames[head].Sound()
    {
      if count > 0 {
        HeadHolds(frames[..], head, count, accepted);
      }
    }

    /** The port takes any part of what it is offered, and of that no more than it said it could. */
    method Poll(writable: int, taken: nat)
      requires Valid()
      modifies this, frames
      ensures Valid()
      ensures accepted == old(accepted) && refused == old(refused)
      ensures var offer := old(Offer());
              && written == old(written) + (if writable <= 0 then [] else offer[..Min(taken, Min(writable, |offer|))])
              && count == old(count) - if old(count) > 0 && taken >= |offer| && writable >= |offer| then 1 else 0
    {
      hide Ring;
      RingShape();
      if count == 0 {
        return;
      }
      if writable <= 0 {
        return;
      }
      var frame := frames[head];
      var remaining := frame.length - frame.offset;
      var chunk := if remaining < writable then remaining else writable;
      var sent := Min(taken, chunk);
      var next := frame.(offset := frame.offset + sent);
      ghost var before := frames[..];
      frames[head] := next;
      assert frames[..] == before[head := next];
      written := written + frame.Unwritten()[..sent];
      if next.offset < next.length {
        PartKeepsRing(before, head, count, accepted, old(written), sent);
        return;
      }
      assert frame.Unwritten()[..sent] == frame.Unwritten();
      RestKeepsRing(before, head, count, accepted, old(written), next);
      head := (head + 1) % QUEUE_DEPTH;
      count := count - 1;
      sentFrames := (sentFrames + 1) % WRAP;
    }
  }
}
