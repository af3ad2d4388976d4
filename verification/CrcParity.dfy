/** The packet checksum also detects every odd number of flipped bits: its polynomial
    has an even number of terms, so a shift keeps the parity of the register. */
module CrcParity {
  import opened PacketCrc
  import opened CrcStrength

  /** Whether an odd number of the first n bits of a register are set. */
  function Parity(x: bv16, n: nat): bool
    decreases n
  {
    if n == 0 then false else TopSet(x) != Parity(Up(x), n - 1)
  }

  /** Whether an odd number of the bits are set. */
  function OddBits(bits: seq<bool>): bool
    decreases |bits|
  {
    if bits == [] then false else bits[0] != OddBits(bits[1..])
  }

  lemma {:induction false} ParityIsLinear(x: bv16, y: bv16, n: nat)
    ensures Parity(Xor(x, y), n) == (Parity(x, n) != Parity(y, n))
    decreases n
  {
    hide Xor, Up, TopSet;
    if n > 0 {
      TopSetIsLinear(x, y);
      UpIsLinear(x, y);
      ParityIsLinear(Up(x), Up(y), n - 1);
    }
  }

  /** Bits that are not there add nothing. */
  lemma {:induction false} SpentParity(x: bv16, n: nat, m: nat)
    requires Spent(x, n) && n <= m
    ensures Parity(x, m) == Parity(x, n)
    decreases m
  {
    hide Up, TopSet;
    if n > 0 {
      SpentParity(Up(x), n - 1, m - 1);
    } else if m > 0 {
      NothingUp();
      SpentParity(Up(x), 0, m - 1);
    }
  }

  lemma NothingUp()
    ensures !TopSet(0) && Up(0) == 0
  {
  }

  lemma {:induction false} TopBitsParity(x: bv16, n: nat)
    ensures OddBits(TopBits(x, n)) == Parity(x, n)
    decreases n
  {
    hide Up, TopSet;
    if n > 0 {
      TopBitsParity(Up(x), n - 1);
      assert TopBits(x, n)[1..] == TopBits(Up(x), n - 1);
    }
  }

  lemma AllSpent(x: bv16)
    ensures Spent(x, 16)
  {
    hide Spent;
    SmallestMask();
    assert Disjoint(x, 0);
    AlignedIsSpent(x, 16);
  }

  lemma SmallestMask()
    ensures Below(16) == 0
  {
    assert Below(4) == 0xFFF;
    assert Below(7) == 0x1FF;
    assert Below(10) == 0x3F;
    assert Below(13) == 7;
  }

  lemma NothingParity(n: nat)
    ensures !Parity(0, n)
    decreases n
  {
    hide Up, TopSet;
    if n > 0 {
      NothingUp();
      NothingParity(n - 1);
    }
  }

  lemma TapsParity(b: bool)
    ensures Parity(Taps(b), 16) == b
  {
    NothingParity(16);
    assert Parity(0x8000, 1);
    assert Parity(0x4000, 2);
    assert Parity(0x2000, 3);
    assert Parity(0x1000, 4);
    assert Parity(0x800, 5);
    assert !Parity(0x8400, 6);
    assert !Parity(0x4200, 7);
    assert !Parity(0x2100, 8);
    assert !Parity(0x1080, 9);
    assert !Parity(0x840, 10);
    assert !Parity(0x420, 11);
    assert !Parity(0x210, 12);
    assert Parity(0x8108, 13);
    assert Parity(0x4084, 14);
    assert Parity(0x2042, 15);
    assert Parity(0x1021, 16);
  }

  /** The polynomial has an even number of terms. */
  lemma ShiftKeepsParity(x: bv16)
    ensures Parity(Shift(x), 16) == Parity(x, 16)
  {
    hide Shift, Xor, Up, TopSet, Taps, Parity;
    ShiftTaps(x);
    ParityIsLinear(Up(x), Taps(TopSet(x)), 16);
    TapsParity(TopSet(x));
    UpParity(x);
  }

  lemma UpParity(x: bv16)
    ensures Parity(Up(x), 16) == (Parity(x, 16) != TopSet(x))
  {
    hide Up, TopSet;
    AllSpent(x);
    SpentParity(Up(x), 15, 16);
  }

  lemma {:induction false} FeedParity(r: bv16, bits: seq<bool>)
    ensures Parity(Feed(r, bits), 16) == (Parity(r, 16) != OddBits(bits))
    decreases |bits|
  {
    hide Parity, Shift, Top, Xor;
    if bits != [] {
      var s := Xor(r, Top(bits[0]));
      ParityIsLinear(r, Top(bits[0]), 16);
      TopParity(bits[0]);
      ShiftKeepsParity(s);
      FeedParity(Shift(s), bits[1..]);
    }
  }

  lemma TopParity(b: bool)
    ensures Parity(Top(b), 16) == b
  {
    hide Spent, Parity;
    TopIsSpent(b);
    SpentParity(Top(b), 1, 16);
    OneBitParity(b);
  }

  lemma TopIsSpent(b: bool)
    ensures Spent(Top(b), 1)
  {
    assert Spent(Up(Top(b)), 0);
  }

  lemma OneBitParity(b: bool)
    ensures Parity(Top(b), 1) == b
  {
    assert !Parity(Up(Top(b)), 0);
  }

  // ---------------------------------------------------------------------------
  // The stored checksum
  // ---------------------------------------------------------------------------

  function Ups(x: bv16, n: nat): bv16
    decreases n
  {
    if n == 0 then x else Ups(Up(x), n - 1)
  }

  /** The top n bits of a register. */
  function Above(n: nat): bv16 { if n == 0 then 0 else 0x8000 | Half(Above(n - 1)) }

  lemma AboveStep(x: bv16, m: bv16)
    requires Disjoint(x, 0x8000 | Half(m))
    ensures !TopSet(x) && Disjoint(Up(x), m)
  {
    assert x & (0x8000 | (m >> 1)) == (x & 0x8000) | (x & (m >> 1));
    MaskUp(x, m);
  }

  lemma {:induction false} ClearBitsAddNothing(x: bv16, n: nat, m: nat)
    requires n <= m && Disjoint(x, Above(n))
    ensures Parity(x, m) == Parity(Ups(x, n), m - n)
    decreases n
  {
    hide Disjoint, Up, Half, TopSet;
    if n > 0 {
      AboveStep(x, Above(n - 1));
      ClearBitsAddNothing(Up(x), n - 1, m - 1);
    }
  }

  function Lowered(b: bv8): bv16 { b as bv16 }

  lemma LoweredGoesUp(b: bv8)
    ensures Ups(Lowered(b), 8) == Raised(b)
  {
    hide Ups;
    var x := Lowered(b);
    EightUps(b);
    UpsNone(Raised(b));
    UpsTwo(Up(Up(Up(Up(Up(Up(x)))))), 0);
    UpsTwo(Up(Up(Up(Up(x)))), 2);
    UpsTwo(Up(Up(x)), 4);
    UpsTwo(x, 6);
  }

  lemma UpsNone(x: bv16)
    ensures Ups(x, 0) == x
  {
  }

  lemma UpsTwo(x: bv16, n: nat)
    ensures Ups(x, n + 2) == Ups(Up(Up(x)), n)
  {
    hide Up;
    assert Ups(Up(x), n + 1) == Ups(Up(Up(x)), n);
  }

  lemma EightUps(b: bv8)
    ensures Up(Up(Up(Up(Up(Up(Up(Up(Lowered(b))))))))) == Raised(b)
  {
  }

  lemma LoweredIsClear(b: bv8)
    ensures Disjoint(Lowered(b), Above(8))
  {
    assert Above(2) == 0xC000;
    assert Above(4) == 0xF000;
    assert Above(6) == 0xFC00;
    assert Above(8) == 0xFF00;
    LoweredIsLow(b);
  }

  lemma LoweredIsLow(b: bv8)
    ensures Disjoint(Lowered(b), 0xFF00)
  {
  }

  lemma BitsParity(b: bv8)
    ensures OddBits(Bits(b)) == Parity(Lowered(b), 16) == Parity(Raised(b), 16)
  {
    hide Raised, Parity, Spent, TopBits, Lowered, OddBits, Ups;
    TopBitsParity(Raised(b), 8);
    RaisedIsSpent(b);
    SpentParity(Raised(b), 8, 16);
    LoweredIsClear(b);
    ClearBitsAddNothing(Lowered(b), 8, 16);
    LoweredGoesUp(b);
  }

  lemma JoinedSplits(low: bv8, high: bv8)
    ensures Joined(low, high) == Xor(Lowered(low), Raised(high))
  {
  }

  lemma StoredParity(packet: seq<bv8>)
    requires |packet| == PACKET_BYTES
    ensures Parity(Stored(packet), 16) == OddBits(AllBits(packet[COVERED_BYTES..]))
  {
    hide Parity, OddBits, Bits, Joined, AllBits, Lowered, Raised, Xor;
    var low, high := packet[COVERED_BYTES], packet[COVERED_BYTES + 1];
    assert packet[COVERED_BYTES..] == [low, high];
    JoinedSplits(low, high);
    ParityIsLinear(Lowered(low), Raised(high), 16);
    BitsParity(low);
    BitsParity(high);
    TwoBytes(low, high);
    OddBitsAppend(Bits(low), Bits(high));
  }

  lemma TwoBytes(low: bv8, high: bv8)
    ensures AllBits([low, high]) == Bits(low) + Bits(high)
  {
    hide Bits;
    assert [low, high][..1] == [low] && [low][..0] == [];
    assert AllBits([low]) == Bits(low);
  }

  // ---------------------------------------------------------------------------
  // Odd numbers of flipped bits
  // ---------------------------------------------------------------------------

  lemma {:induction false} OddBitsAppend(a: seq<bool>, b: seq<bool>)
    ensures OddBits(a + b) == (OddBits(a) != OddBits(b))
    decreases |a|
  {
    if a == [] {
      assert a + b == b;
    } else {
      assert (a + b)[1..] == a[1..] + b;
      OddBitsAppend(a[1..], b);
    }
  }

  lemma {:induction false} OddOfDiff(a: seq<bool>, b: seq<bool>)
    requires |a| == |b|
    ensures OddBits(Diff(a, b)) == (OddBits(a) != OddBits(b))
    decreases |a|
  {
    if a != [] {
      assert Diff(a, b)[1..] == Diff(a[1..], b[1..]);
      OddOfDiff(a[1..], b[1..]);
    }
  }

  lemma {:induction false} AllBitsAppend(a: seq<bv8>, b: seq<bv8>)
    ensures AllBits(a + b) == AllBits(a) + AllBits(b)
  {
    hide Bits;
    if b == [] {
      assert a + b == a;
    } else {
      assert (a + b)[..|a + b| - 1] == a + b[..|b| - 1];
      AllBitsAppend(a, b[..|b| - 1]);
    }
  }

  lemma PacketParity(packet: seq<bv8>)
    requires |packet| == PACKET_BYTES
    ensures OddBits(AllBits(packet)) == (OddBits(AllBits(Covered(packet))) != Parity(Stored(packet), 16))
  {
    hide Parity, OddBits, AllBits, Stored;
    assert packet == Covered(packet) + packet[COVERED_BYTES..];
    AllBitsAppend(Covered(packet), packet[COVERED_BYTES..]);
    OddBitsAppend(AllBits(Covered(packet)), AllBits(packet[COVERED_BYTES..]));
    StoredParity(packet);
  }

  /** A verified packet with an odd number of its bits flipped, anywhere in its 65 bytes, is rejected. */
  lemma OddChangeIsRejected(packet: seq<bv8>, changed: seq<bv8>)
    requires |packet| == |changed| == PACKET_BYTES && Verifies(packet)
    requires OddBits(Diff(AllBits(packet), AllBits(changed)))
    ensures !Verifies(changed)
  {
    hide Feed, AllBits, Parity, OddBits, Stored, Covered, Verifies, Xor, Diff;
    AcceptedChangesExactly(packet, changed);
    PacketParity(packet);
    PacketParity(changed);
    OddOfDiff(AllBits(packet), AllBits(changed));
    OddOfDiff(AllBits(Covered(packet)), AllBits(Covered(changed)));
    FlipsParity(packet, changed);
    ParityIsLinear(Stored(packet), Stored(changed), 16);
  }

  lemma FlipsParity(packet: seq<bv8>, changed: seq<bv8>)
    requires |packet| == |changed| == PACKET_BYTES
    ensures Parity(Feed(0, Flips(packet, changed)), 16)
         == (OddBits(AllBits(Covered(packet))) != OddBits(AllBits(Covered(changed))))
  {
    hide Feed, AllBits, Parity, OddBits, Covered, Diff;
    FeedParity(0, Flips(packet, changed));
    NothingParity(16);
    OddOfDiff(AllBits(Covered(packet)), AllBits(Covered(changed)));
  }
}
