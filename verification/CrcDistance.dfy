/** The packet checksum detects every change of up to three bits: over the length of a packet no
    single bit, shifted on, ever becomes a single bit again. */
module CrcDistance {
  import opened PacketCrc
  import opened CrcStrength
  import opened CrcParity

  /** At most one bit is set. */
  predicate Single(x: bv16) { x & (x - 1) == 0 }

  // ---------------------------------------------------------------------------
  // The orbit of a single bit
  // ---------------------------------------------------------------------------

  lemma {:induction false} ShiftsAdd(x: bv16, a: nat, b: nat)
    ensures Shifts(x, a + b) == Shifts(Shifts(x, a), b)
    decreases a
  {
    hide Shift;
    if a > 0 {
      ShiftsAdd(Shift(x), a - 1, b);
    }
  }

  /** The top bit has gone through n shifts and was never a single bit after any of them. */
  ghost predicate Travelled(n: nat, x: bv16) {
    x == Shifts(0x8000, n) && forall k | 1 <= k <= n :: !Single(Shifts(0x8000, k))
  }

  /** The next eight registers have more than one bit, and the last of them is y. */
  predicate EightOn(x: bv16, y: bv16) {
    var a := Shift(x);
    var b := Shift(a);
    var c := Shift(b);
    var d := Shift(c);
    var e := Shift(d);
    var f := Shift(e);
    var g := Shift(f);
    && y == Shift(g)
    && !Single(a) && !Single(b) && !Single(c) && !Single(d) && !Single(e) && !Single(f) && !Single(g) && !Single(y)
  }

  lemma OneOn(n: nat, x: bv16)
    requires Travelled(n, x) && !Single(Shift(x))
    ensures Travelled(n + 1, Shift(x))
  {
    hide Shift, Single;
    ShiftsAdd(0x8000, n, 1);
    assert Shifts(x, 1) == Shifts(Shift(x), 0);
  }

  lemma TravelOn(n: nat, x: bv16, y: bv16)
    requires Travelled(n, x) && EightOn(x, y)
    ensures Travelled(n + 8, y)
  {
    hide Shift, Single, Travelled;
    var a := Shift(x);
    var b := Shift(a);
    var c := Shift(b);
    var d := Shift(c);
    var e := Shift(d);
    var f := Shift(e);
    var g := Shift(f);
    OneOn(n, x);
    OneOn(n + 1, a);
    OneOn(n + 2, b);
    OneOn(n + 3, c);
    OneOn(n + 4, d);
    OneOn(n + 5, e);
    OneOn(n + 6, f);
    OneOn(n + 7, g);
  }

  lemma SetOut()
    ensures Travelled(0, 0x8000)
  {
  }

  lemma OrbitTo72()
    ensures Travelled(72, 0xBFB2)
  {
    hide Travelled;
    SetOut();
    TravelOn(0, 0x8000, 0x9188);
    TravelOn(8, 0x9188, 0x1B98);
    TravelOn(16, 0x1B98, 0x3B5A);
    TravelOn(24, 0x3B5A, 0xDD38);
    TravelOn(32, 0xDD38, 0x22D0);
    TravelOn(40, 0x22D0, 0xD420);
    TravelOn(48, 0xD420, 0xABF9);
    TravelOn(56, 0xABF9, 0xFD81);
    TravelOn(64, 0xFD81, 0xBFB2);
  }

  lemma OrbitTo144()
    ensures Travelled(144, 0xE71F)
  {
    hide Travelled;
    OrbitTo72();
    TravelOn(72, 0xBFB2, 0xE434);
    TravelOn(80, 0xE434, 0x89AA);
    TravelOn(88, 0x89AA, 0xAAA1);
    TravelOn(96, 0xAAA1, 0xB5A0);
    TravelOn(104, 0xB5A0, 0x577E);
    TravelOn(112, 0x577E, 0x5412);
    TravelOn(120, 0x5412, 0x0871);
    TravelOn(128, 0x0871, 0xF008);
    TravelOn(136, 0xF008, 0xE71F);
  }

  lemma OrbitTo216()
    ensures Travelled(216, 0x124A)
  {
    hide Travelled;
    OrbitTo144();
    TravelOn(144, 0xE71F, 0x92C9);
    TravelOn(152, 0x92C9, 0x6AFB);
    TravelOn(160, 0x6AFB, 0x36EC);
    TravelOn(168, 0x36EC, 0xBA95);
    TravelOn(176, 0xBA95, 0x9391);
    TravelOn(184, 0x9391, 0x22DA);
    TravelOn(192, 0x22DA, 0xDE20);
    TravelOn(200, 0xDE20, 0x0AB3);
    TravelOn(208, 0x0AB3, 0x124A);
  }

  lemma OrbitTo288()
    ensures Travelled(288, 0xF235)
  {
    hide Travelled;
    OrbitTo216();
    TravelOn(216, 0x124A, 0x7873);
    TravelOn(224, 0x7873, 0x8C9F);
    TravelOn(232, 0x8C9F, 0xCF04);
    TravelOn(240, 0xCF04, 0x2CA3);
    TravelOn(248, 0x2CA3, 0x46EE);
    TravelOn(256, 0x46EE, 0xC602);
    TravelOn(264, 0xC602, 0xBB8A);
    TravelOn(272, 0xBB8A, 0x9CB0);
    TravelOn(280, 0x9CB0, 0xF235);
  }

  lemma OrbitTo360()
    ensures Travelled(360, 0xDC6C)
  {
    hide Travelled;
    OrbitTo288();
    TravelOn(288, 0xF235, 0xFA5D);
    TravelOn(296, 0xFA5D, 0x1355);
    TravelOn(304, 0x1355, 0x7752);
    TravelOn(312, 0x7752, 0x5C70);
    TravelOn(320, 0x5C70, 0xEB79);
    TravelOn(328, 0xEB79, 0x3545);
    TravelOn(336, 0x3545, 0x23F6);
    TravelOn(344, 0x23F6, 0xE201);
    TravelOn(352, 0xE201, 0xDC6C);
  }

  lemma OrbitTo432()
    ensures Travelled(432, 0x9A8A)
  {
    hide Travelled;
    OrbitTo360();
    TravelOn(360, 0xDC6C, 0x66F1);
    TravelOn(368, 0x66F1, 0xFD60);
    TravelOn(376, 0xFD60, 0x5EB2);
    TravelOn(384, 0x5EB2, 0x093B);
    TravelOn(392, 0x093B, 0xAA29);
    TravelOn(400, 0xAA29, 0x3DA0);
    TravelOn(408, 0x3DA0, 0x47FE);
    TravelOn(416, 0x47FE, 0xC623);
    TravelOn(424, 0xC623, 0x9A8A);
  }

  lemma OrbitTo504()
    ensures Travelled(504, 0x6F29)
  {
    hide Travelled;
    OrbitTo432();
    TravelOn(432, 0x9A8A, 0xA8F3);
    TravelOn(440, 0xA8F3, 0xC7E2);
    TravelOn(448, 0xC7E2, 0x4BAB);
    TravelOn(456, 0x4BAB, 0x52AF);
    TravelOn(464, 0x52AF, 0xD5B7);
    TravelOn(472, 0xD5B7, 0x2CD8);
    TravelOn(480, 0x2CD8, 0x3DEE);
    TravelOn(488, 0x3DEE, 0x09FE);
    TravelOn(496, 0x09FE, 0x6F29);
  }

  /** Within the covered length no shifted single bit is a single bit. */
  lemma NeverSingleAgain(k: nat)
    requires 1 <= k <= 8 * COVERED_BYTES
    ensures !Single(Shifts(0x8000, k))
  {
    hide Single;
    OrbitTo504();
  }

  // ---------------------------------------------------------------------------
  // Counting flips
  // ---------------------------------------------------------------------------

  function Ones(bits: seq<bool>): nat
    decreases |bits|
  {
    if bits == [] then 0 else (if bits[0] then 1 else 0) + Ones(bits[1..])
  }

  lemma {:induction false} OnesAppend(a: seq<bool>, b: seq<bool>)
    ensures Ones(a + b) == Ones(a) + Ones(b)
    decreases |a|
  {
    if a == [] {
      assert a + b == b;
    } else {
      assert (a + b)[1..] == a[1..] + b;
      OnesAppend(a[1..], b);
    }
  }

  lemma {:induction false} NoOnes(bits: seq<bool>)
    ensures Ones(bits) == 0 <==> AllClear(bits)
    decreases |bits|
  {
    if bits != [] {
      NoOnes(bits[1..]);
      assert forall i | 1 <= i < |bits| :: bits[i] == bits[1..][i - 1];
      assert forall i | 0 <= i < |bits| - 1 :: bits[1..][i] == bits[i + 1];
    }
  }

  lemma {:induction false} OnesAreOdd(bits: seq<bool>)
    ensures OddBits(bits) <==> Ones(bits) % 2 == 1
    decreases |bits|
  {
    if bits != [] {
      OnesAreOdd(bits[1..]);
    }
  }

  /** The bits up to the first one that is set, and those after it. */
  lemma {:induction false} FirstOne(bits: seq<bool>) returns (i: nat)
    requires Ones(bits) > 0
    ensures i < |bits| && AllClear(bits[..i]) && bits[i] && Ones(bits[i + 1..]) == Ones(bits) - 1
    ensures bits == bits[..i] + ([true] + bits[i + 1..])
    decreases |bits|
  {
    if bits[0] {
      i := 0;
    } else {
      hide AllClear;
      var k := FirstOne(bits[1..]);
      i := k + 1;
      assert bits[1..][k + 1..] == bits[i + 1..];
      ClearFront(bits, k);
    }
  }

  lemma ClearFront(bits: seq<bool>, k: nat)
    requires k < |bits| && !bits[0] && AllClear(bits[1..][..k])
    ensures AllClear(bits[..k + 1])
  {
    forall n | 0 < n < k + 1 ensures !bits[n] {
      assert bits[n] == bits[1..][..k][n - 1];
    }
  }

  // ---------------------------------------------------------------------------
  // What one or two flips leave
  // ---------------------------------------------------------------------------

  lemma FeedOne(r: bv16, rest: seq<bool>)
    ensures Feed(r, [true] + rest) == Feed(Shift(Xor(r, 0x8000)), rest)
  {
    hide Shift, Xor;
    assert ([true] + rest)[1..] == rest;
  }

  /** One set bit leaves the top bit shifted to the end. */
  lemma OneLeaves(bits: seq<bool>) returns (k: nat)
    requires Ones(bits) == 1
    ensures 1 <= k <= |bits| && Feed(0, bits) == Shifts(0x8000, k)
  {
    hide Feed, Shift, Xor, AllClear;
    var i := FirstOne(bits);
    var rest := bits[i + 1..];
    ClearFirst(bits, i);
    NoOnes(rest);
    XorZero(0x8000);
    FeedClear(Shift(0x8000), rest);
    k := |rest| + 1;
    assert Shifts(0x8000, k) == Shifts(Shift(0x8000), |rest|);
  }

  lemma ClearFirst(bits: seq<bool>, i: nat)
    requires i < |bits| && AllClear(bits[..i]) && bits == bits[..i] + ([true] + bits[i + 1..])
    ensures Feed(0, bits) == Feed(Shift(Xor(0, 0x8000)), bits[i + 1..])
  {
    hide Feed, Shift, Xor, AllClear;
    FeedAppends(0, bits[..i], [true] + bits[i + 1..]);
    FeedClear(0, bits[..i]);
    ShiftsLoseNothing(0, i);
    FeedOne(0, bits[i + 1..]);
  }

  /** Two set bits leave something as long as the first does not come round to the second. */
  lemma TwoLeaveSomething(bits: seq<bool>)
    requires Ones(bits) == 2 && |bits| <= 8 * COVERED_BYTES
    ensures Feed(0, bits) != 0
  {
    hide Feed, Shift, Shifts, Xor, AllClear, Single;
    var i := FirstOne(bits);
    var rest := bits[i + 1..];
    ClearFirst(bits, i);
    XorZero(0x8000);
    var j := FirstOne(rest);
    var last := rest[j + 1..];
    NoOnes(last);
    FeedAppends(Shift(0x8000), rest[..j], [true] + last);
    FeedClear(Shift(0x8000), rest[..j]);
    ShiftOneMore(0x8000, j);
    var k := j + 1;
    NeverSingleAgain(k);
    TopIsSingle();
    XorCancels(Shifts(0x8000, k), 0x8000);
    FeedOne(Shifts(0x8000, k), last);
    var left := Xor(Shifts(0x8000, k), 0x8000);
    ShiftLosesNothing(left);
    FeedClear(Shift(left), last);
    ShiftsLoseNothing(Shift(left), |last|);
  }

  lemma ShiftOneMore(x: bv16, j: nat)
    ensures Shifts(x, j + 1) == Shifts(Shift(x), j)
  {
  }

  lemma TopIsSingle()
    ensures Single(0x8000)
  {
  }

  // ---------------------------------------------------------------------------
  // Flips in the stored checksum
  // ---------------------------------------------------------------------------

  lemma SingleGoesDown(x: bv16)
    requires !TopSet(x) && Single(Up(x))
    ensures Single(x)
  {
  }

  lemma UpEmpty(x: bv16)
    requires Up(x) == 0
    ensures Single(x)
  {
  }

  lemma {:induction false} OneBitIsSingle(x: bv16, n: nat)
    requires Spent(x, n) && Ones(TopBits(x, n)) <= 1
    ensures Single(x)
    ensures Ones(TopBits(x, n)) == 0 ==> x == 0
    decreases n
  {
    hide Single, Up, TopSet;
    if n == 0 {
      UpIsNothing();
    } else {
      assert TopBits(x, n)[1..] == TopBits(Up(x), n - 1);
      OneBitIsSingle(Up(x), n - 1);
      if TopSet(x) {
        UpEmpty(x);
      } else {
        SingleGoesDown(x);
        if Up(x) == 0 {
          ClearTopOnly(x);
        }
      }
    }
  }

  lemma UpIsNothing()
    ensures Single(0) && Up(0) == 0
  {
  }

  lemma ClearTopOnly(x: bv16)
    requires !TopSet(x) && Up(x) == 0
    ensures x == 0
  {
  }

  function XorByte(a: bv8, b: bv8): bv8 { a ^ b }

  lemma RaisedXor(a: bv8, b: bv8)
    ensures Xor(Raised(a), Raised(b)) == Raised(XorByte(a, b))
  {
  }

  lemma JoinedXor(a: bv8, b: bv8, c: bv8, d: bv8)
    ensures Xor(Joined(a, b), Joined(c, d)) == Joined(XorByte(a, c), XorByte(b, d))
  {
  }

  lemma {:induction false} TopBitsDiff(x: bv16, y: bv16, n: nat)
    ensures Diff(TopBits(x, n), TopBits(y, n)) == TopBits(Xor(x, y), n)
    decreases n
  {
    hide Xor, Up, TopSet, Diff;
    if n == 0 {
      NothingDiffers();
    } else {
      TopBitsDiff(Up(x), Up(y), n - 1);
      TopSetIsLinear(x, y);
      UpIsLinear(x, y);
      DiffAppends([TopSet(x)], [TopSet(y)], TopBits(Up(x), n - 1), TopBits(Up(y), n - 1));
      OneDiffers(TopSet(x), TopSet(y));
    }
  }

  lemma NothingDiffers()
    ensures Diff([], []) == []
  {
  }

  lemma OneDiffers(a: bool, b: bool)
    ensures Diff([a], [b]) == [a != b]
  {
  }

  /** Where two bytes differ in at most one bit, their difference is a single bit; where in none, it is zero. */
  lemma ByteFlips(a: bv8, b: bv8)
    ensures Ones(Diff(Bits(a), Bits(b))) == 0 <==> XorByte(a, b) == 0
    ensures Ones(Diff(Bits(a), Bits(b))) <= 1 ==> Single(Raised(XorByte(a, b)))
  {
    hide Single, Xor, Raised, XorByte, Spent, TopBits, Ones, Diff;
    var d := XorByte(a, b);
    TopBitsDiff(Raised(a), Raised(b), 8);
    RaisedXor(a, b);
    RaisedIsSpent(d);
    RaisedNothing(d);
    if Ones(TopBits(Raised(d), 8)) <= 1 {
      OneBitIsSingle(Raised(d), 8);
    }
    if d == 0 {
      NothingOnTop(8);
      NoOnes(TopBits(0, 8));
    }
  }

  lemma RaisedNothing(d: bv8)
    ensures Raised(d) == 0 <==> d == 0
  {
  }

  lemma {:induction false} NothingOnTop(n: nat)
    ensures AllClear(TopBits(0, n))
    decreases n
  {
    hide Up, TopSet;
    if n > 0 {
      NothingUp();
      NothingOnTop(n - 1);
    }
  }

  lemma OneByteJoined(low: bv8, high: bv8)
    requires (high == 0 && Single(Raised(low))) || (low == 0 && Single(Raised(high)))
    ensures Single(Joined(low, high))
  {
    if low == 0 {
      assert Joined(0, high) == Raised(high);
    } else {
      SingleLowered(low);
      assert Joined(low, 0) == Lowered(low);
    }
  }

  lemma SingleLowered(b: bv8)
    requires Single(Raised(b))
    ensures Single(Lowered(b))
  {
  }

  lemma NothingJoined(low: bv8, high: bv8)
    ensures Joined(low, high) == 0 <==> low == 0 && high == 0
  {
  }

  // ---------------------------------------------------------------------------
  // Up to three flips
  // ---------------------------------------------------------------------------

  function LowFlips(packet: seq<bv8>, changed: seq<bv8>): nat
    requires |packet| == |changed| == PACKET_BYTES
  {
    Ones(Diff(Bits(packet[COVERED_BYTES]), Bits(changed[COVERED_BYTES])))
  }

  function HighFlips(packet: seq<bv8>, changed: seq<bv8>): nat
    requires |packet| == |changed| == PACKET_BYTES
  {
    Ones(Diff(Bits(packet[COVERED_BYTES + 1]), Bits(changed[COVERED_BYTES + 1])))
  }

  lemma DiffAppends(a: seq<bool>, b: seq<bool>, c: seq<bool>, d: seq<bool>)
    requires |a| == |b| && |c| == |d|
    ensures Diff(a + c, b + d) == Diff(a, b) + Diff(c, d)
  {
  }

  lemma PacketBits(packet: seq<bv8>)
    requires |packet| == PACKET_BYTES
    ensures AllBits(packet) == AllBits(Covered(packet)) + (Bits(packet[COVERED_BYTES]) + Bits(packet[COVERED_BYTES + 1]))
  {
    hide AllBits, Bits;
    assert packet == Covered(packet) + [packet[COVERED_BYTES], packet[COVERED_BYTES + 1]];
    AllBitsAppend(Covered(packet), [packet[COVERED_BYTES], packet[COVERED_BYTES + 1]]);
    TwoBytes(packet[COVERED_BYTES], packet[COVERED_BYTES + 1]);
  }

  /** Every flip is among the covered bits or in one of the two bytes of the checksum. */
  lemma FlipsAddUp(packet: seq<bv8>, changed: seq<bv8>)
    requires |packet| == |changed| == PACKET_BYTES
    ensures Ones(Diff(AllBits(packet), AllBits(changed)))
         == Ones(Flips(packet, changed)) + LowFlips(packet, changed) + HighFlips(packet, changed)
    ensures |Flips(packet, changed)| == 8 * COVERED_BYTES
  {
    hide AllBits, Bits, Diff, Ones, Covered;
    PacketBits(packet);
    PacketBits(changed);
    var a, b := AllBits(Covered(packet)), AllBits(Covered(changed));
    var low, low' := Bits(packet[COVERED_BYTES]), Bits(changed[COVERED_BYTES]);
    var high, high' := Bits(packet[COVERED_BYTES + 1]), Bits(changed[COVERED_BYTES + 1]);
    DiffAppends(a, b, low + high, low' + high');
    DiffAppends(low, low', high, high');
    OnesAppend(Diff(a, b), Diff(low, low') + Diff(high, high'));
    OnesAppend(Diff(low, low'), Diff(high, high'));
    DiffLength(a, b);
  }

  lemma DiffLength(a: seq<bool>, b: seq<bool>)
    requires |a| == |b|
    ensures |Diff(a, b)| == |a|
  {
  }

  /** How the stored checksums differ, by the flips in their bytes. */
  lemma StoredFlips(packet: seq<bv8>, changed: seq<bv8>)
    requires |packet| == |changed| == PACKET_BYTES
    ensures var d := Xor(Stored(packet), Stored(changed));
            && (LowFlips(packet, changed) + HighFlips(packet, changed) == 0 <==> d == 0)
            && (LowFlips(packet, changed) + HighFlips(packet, changed) <= 1 ==> Single(d))
  {
    hide Bits, Diff, Ones, Xor, Joined, Single, XorByte;
    var low, high := packet[COVERED_BYTES], packet[COVERED_BYTES + 1];
    var low', high' := changed[COVERED_BYTES], changed[COVERED_BYTES + 1];
    JoinedXor(low, high, low', high');
    ByteFlips(low, low');
    ByteFlips(high, high');
    NothingJoined(XorByte(low, low'), XorByte(high, high'));
    if LowFlips(packet, changed) + HighFlips(packet, changed) <= 1 {
      OneByteJoined(XorByte(low, low'), XorByte(high, high'));
    }
  }

  /** A verified packet with two of its 520 bits flipped is rejected. */
  lemma TwoFlipsAreRejected(packet: seq<bv8>, changed: seq<bv8>)
    requires |packet| == |changed| == PACKET_BYTES && Verifies(packet)
    requires Ones(Diff(AllBits(packet), AllBits(changed))) == 2
    ensures !Verifies(changed)
  {
    hide AllBits, Diff, Ones, Xor, Single, Feed, Verifies, Stored, LowFlips, HighFlips, Flips, Shifts, AllClear;
    AcceptedChangesExactly(packet, changed);
    FlipsAddUp(packet, changed);
    StoredFlips(packet, changed);
    var flips := Flips(packet, changed);
    if Ones(flips) == 0 {
      NoOnes(flips);
      FeedClear(0, flips);
      ShiftsLoseNothing(0, |flips|);
    } else if Ones(flips) == 1 {
      var k := OneLeaves(flips);
      NeverSingleAgain(k);
    } else {
      TwoLeaveSomething(flips);
    }
  }

  /** A verified packet with one, two or three of its 520 bits flipped, anywhere, is rejected. */
  lemma UpToThreeFlipsAreRejected(packet: seq<bv8>, changed: seq<bv8>)
    requires |packet| == |changed| == PACKET_BYTES && Verifies(packet)
    requires 1 <= Ones(Diff(AllBits(packet), AllBits(changed))) <= 3
    ensures !Verifies(changed)
  {
    hide AllBits, Diff, Ones, Verifies, OddBits;
    var flips := Diff(AllBits(packet), AllBits(changed));
    OnesAreOdd(flips);
    if Ones(flips) == 2 {
      TwoFlipsAreRejected(packet, changed);
    } else {
      OddChangeIsRejected(packet, changed);
    }
  }

  // ---------------------------------------------------------------------------
  // Four flips
  // ---------------------------------------------------------------------------

  /** The polynomial itself, as a pattern of flips. */
  function Generator(): seq<bool> { [true] + TopBits(0x1021, 16) }

  lemma OnesStep(x: bv16, n: nat)
    requires n > 0
    ensures Ones(TopBits(x, n)) == (if TopSet(x) then 1 else 0) + Ones(TopBits(Up(x), n - 1))
  {
    hide TopSet, Up;
    assert TopBits(x, n)[1..] == TopBits(Up(x), n - 1);
  }

  lemma GeneratorHasFour()
    ensures Ones(Generator()) == 4
  {
    hide Ones, TopBits;
    NoOnes(TopBits(0, 0));
    OnesStep(0x8000, 1);
    OnesStep(0x4000, 2);
    OnesStep(0x2000, 3);
    OnesStep(0x1000, 4);
    OnesStep(0x0800, 5);
    OnesStep(0x8400, 6);
    OnesStep(0x4200, 7);
    OnesStep(0x2100, 8);
    OnesStep(0x1080, 9);
    OnesStep(0x0840, 10);
    OnesStep(0x0420, 11);
    OnesStep(0x0210, 12);
    OnesStep(0x8108, 13);
    OnesStep(0x4084, 14);
    OnesStep(0x2042, 15);
    OnesStep(0x1021, 16);
    OnesAppend([true], TopBits(0x1021, 16));
    OneOne();
  }

  lemma OneOne()
    ensures Ones([true]) == 1
  {
    assert [true][1..] == [];
  }

  lemma GeneratorLeavesNothing()
    ensures Feed(0, Generator()) == 0
  {
    hide Feed, TopBits, Shifts, Xor, Pack, Spent;
    FeedOne(0, TopBits(0x1021, 16));
    XorZero(0x8000);
    assert Shift(0x8000) == 0x1021;
    FeedPacks(0x1021, TopBits(0x1021, 16));
    AllSpent(0x1021);
    PackOfTopBits(0x1021, 16);
    XorCancels(0x1021, 0x1021);
    ShiftsLoseNothing(0, 16);
  }

  /** Three is the most: the four flips of the polynomial, anywhere among the covered bits, go unnoticed. */
  lemma FourFlipsCanPass(packet: seq<bv8>, changed: seq<bv8>, before: seq<bool>, after: seq<bool>)
    requires |packet| == |changed| == PACKET_BYTES && Verifies(packet) && Stored(changed) == Stored(packet)
    requires AllClear(before) && AllClear(after) && Flips(packet, changed) == before + (Generator() + after)
    ensures Verifies(changed) && Ones(Flips(packet, changed)) == 4
  {
    hide AllBits, Diff, Ones, Xor, Feed, Verifies, Stored, Flips, Shifts, AllClear, Generator;
    AcceptedChangesExactly(packet, changed);
    FeedAppends(0, before, Generator() + after);
    FeedClear(0, before);
    ShiftsLoseNothing(0, |before|);
    FeedAppends(0, Generator(), after);
    GeneratorLeavesNothing();
    FeedClear(0, after);
    ShiftsLoseNothing(0, |after|);
    XorCancels(Stored(packet), Stored(changed));
    GeneratorHasFour();
    NoOnes(before);
    NoOnes(after);
    OnesAppend(before, Generator() + after);
    OnesAppend(Generator(), after);
  }

  lemma TopBitsStep(x: bv16, n: nat)
    requires n > 0
    ensures TopBits(x, n) == [TopSet(x)] + TopBits(Up(x), n - 1)
  {
  }

  lemma NoTopBits(x: bv16)
    ensures TopBits(x, 0) == []
  {
  }

  /** The polynomial as it lies in three bytes. */
  lemma GeneratorInBytes()
    ensures Bits(0x01) + Bits(0x10) + Bits(0x21) == seq(7, _ => false) + Generator()
  {
    hide TopBits, TopSet, Up;
    LeadingByte();
    MiddleByte();
    assert Raised(0x21) == 0x2100;
    assert [true] + (Bits(0x10) + Bits(0x21)) == [true] + TopBits(0x1021, 16);
  }

  lemma LeadingByte()
    ensures Bits(0x01) == seq(7, _ => false) + [true]
  {
    hide TopBits;
    assert Raised(0x01) == 0x0100;
    TopBitsStep(0x0100, 8);
    TopBitsStep(0x0200, 7);
    TopBitsStep(0x0400, 6);
    TopBitsStep(0x0800, 5);
    TopBitsStep(0x1000, 4);
    TopBitsStep(0x2000, 3);
    TopBitsStep(0x4000, 2);
    TopBitsStep(0x8000, 1);
    NoTopBits(0);
  }

  lemma MiddleByte()
    ensures TopBits(0x1021, 16) == Bits(0x10) + TopBits(0x2100, 8)
  {
    hide TopBits;
    assert Raised(0x10) == 0x1000;
    TopBitsStep(0x1021, 16);
    TopBitsStep(0x2042, 15);
    TopBitsStep(0x4084, 14);
    TopBitsStep(0x8108, 13);
    TopBitsStep(0x0210, 12);
    TopBitsStep(0x0420, 11);
    TopBitsStep(0x0840, 10);
    TopBitsStep(0x1080, 9);
    TopBitsStep(0x1000, 8);
    TopBitsStep(0x2000, 7);
    TopBitsStep(0x4000, 6);
    TopBitsStep(0x8000, 5);
    TopBitsStep(0x0000, 4);
    TopBitsStep(0x0000, 3);
    TopBitsStep(0x0000, 2);
    TopBitsStep(0x0000, 1);
    NoTopBits(0);
  }

  /** A packet of zeros but for the last three covered bytes and the checksum. */
  function Ending(x: bv8, y: bv8, z: bv8, crc: bv16): (packet: seq<bv8>)
    ensures |packet| == PACKET_BYTES
  {
    Zeros() + [x, y, z] + [LowByte(crc), HighByte(crc)]
  }

  function Zeros(): (zeros: seq<bv8>)
    ensures |zeros| == COVERED_BYTES - 3
  {
    seq(COVERED_BYTES - 3, _ => 0)
  }

  lemma EndingParts(x: bv8, y: bv8, z: bv8, crc: bv16)
    ensures Covered(Ending(x, y, z, crc)) == Zeros() + [x, y, z]
    ensures Stored(Ending(x, y, z, crc)) == crc
  {
    hide LowByte, HighByte, Joined, Zeros;
    BytesRejoin(crc);
  }

  lemma EndingBits(x: bv8, y: bv8, z: bv8)
    ensures AllBits(Zeros() + [x, y, z]) == AllBits(Zeros()) + (Bits(x) + Bits(y) + Bits(z))
  {
    hide AllBits, Bits, Zeros;
    AllBitsAppend(Zeros(), [x, y, z]);
    AllBitsAppend([x, y], [z]);
    assert [x, y] + [z] == [x, y, z];
    TwoBytes(x, y);
    OneByte(z);
  }

  lemma OneByte(b: bv8)
    ensures AllBits([b]) == Bits(b)
  {
    assert [b][..0] == [];
  }

  lemma DiffOfSame(bits: seq<bool>)
    ensures AllClear(Diff(bits, bits))
  {
  }

  lemma DiffFromClear(clear: seq<bool>, bits: seq<bool>)
    requires |clear| == |bits| && AllClear(clear)
    ensures Diff(clear, bits) == bits
  {
  }

  lemma ZeroBits()
    ensures AllClear(Bits(0) + Bits(0) + Bits(0))
  {
    NothingOnTop(8);
    assert Raised(0) == 0;
  }

  /** Where the packet of zeros and the one that ends in the polynomial differ. */
  lemma EndingFlips(crc: bv16) returns (before: seq<bool>)
    ensures AllClear(before)
    ensures Flips(Ending(0, 0, 0, crc), Ending(0x01, 0x10, 0x21, crc)) == before + (Generator() + [])
  {
    hide AllBits, Bits, Diff, Generator, Ending, Zeros, Covered;
    var zeros, none := AllBits(Zeros()), Bits(0) + Bits(0) + Bits(0);
    var seven := seq(7, _ => false);
    EndingParts(0, 0, 0, crc);
    EndingParts(0x01, 0x10, 0x21, crc);
    EndingBits(0, 0, 0);
    EndingBits(0x01, 0x10, 0x21);
    GeneratorInBytes();
    ZeroBits();
    DiffAppends(zeros, zeros, none, seven + Generator());
    DiffFromClear(none, seven + Generator());
    DiffOfSame(zeros);
    before := Diff(zeros, zeros) + seven;
    assert Diff(zeros, zeros) + (seven + Generator()) == before + (Generator() + []);
  }

  lemma NothingClear()
    ensures AllClear([])
  {
  }

  /** There are two packets that both verify and differ in four bits. */
  lemma FourFlipsGoUnnoticed()
    ensures exists packet, changed | |packet| == |changed| == PACKET_BYTES ::
              Verifies(packet) && Verifies(changed) && Ones(Diff(AllBits(packet), AllBits(changed))) == 4
  {
    hide AllBits, Diff, Ones, Crc, Stored, Covered, Generator, Ending, Zeros, AllClear, LowFlips, HighFlips, Flips;
    var crc := Crc(PRESET, Zeros() + [0, 0, 0]);
    var packet, changed := Ending(0, 0, 0, crc), Ending(0x01, 0x10, 0x21, crc);
    EndingParts(0, 0, 0, crc);
    EndingParts(0x01, 0x10, 0x21, crc);
    var before := EndingFlips(crc);
    NothingClear();
    FourFlipsCanPass(packet, changed, before, []);
    FlipsAddUp(packet, changed);
    StoredFlips(packet, changed);
    XorCancels(crc, crc);
    assert Ones(Diff(AllBits(packet), AllBits(changed))) == 4;
  }
}
