/** What the packet checksum detects: every burst of up to 16 bits and every odd
    number of flipped bits. The register is linear over exclusive or, and a shift
    loses nothing. */
module CrcStrength {
  import opened PacketCrc

  // ---------------------------------------------------------------------------
  // Exclusive or, one register at a time
  // ---------------------------------------------------------------------------

  function Top(b: bool): bv16 { if b then 0x8000 else 0 }

  function Up(x: bv16): bv16 { x << 1 }

  function Half(x: bv16): bv16 { x >> 1 }

  predicate LowClear(x: bv16) { x & 1 == 0 }

  lemma XorAssociates(x: bv16, y: bv16, z: bv16)
    ensures Xor(Xor(x, y), z) == Xor(x, Xor(y, z))
  {
  }

  lemma XorCommutes(x: bv16, y: bv16)
    ensures Xor(x, y) == Xor(y, x)
  {
  }

  lemma XorExchanges(r: bv16, s: bv16, x: bv16, y: bv16)
    ensures Xor(Xor(r, s), Xor(x, y)) == Xor(Xor(r, x), Xor(s, y))
  {
    hide Xor;
    XorAssociates(r, s, Xor(x, y));
    XorAssociates(s, x, y);
    XorCommutes(s, x);
    XorAssociates(x, s, y);
    XorAssociates(r, x, Xor(s, y));
  }

  lemma XorCancels(x: bv16, y: bv16)
    ensures Xor(x, y) == 0 <==> x == y
  {
  }

  lemma XorZero(x: bv16)
    ensures Xor(x, 0) == x && Xor(0, x) == x
  {
  }

  lemma XorMatches(a: bv16, b: bv16, c: bv16)
    ensures Xor(a, b) == Xor(a, c) <==> b == c
  {
  }

  lemma TopIsLinear(a: bool, b: bool)
    ensures Xor(Top(a), Top(b)) == Top(a != b)
  {
  }

  lemma TopSetIsLinear(x: bv16, y: bv16)
    ensures TopSet(Xor(x, y)) == (TopSet(x) != TopSet(y))
  {
    assert (x ^ y) & 0x8000 == (x & 0x8000) ^ (y & 0x8000);
  }

  lemma UpIsLinear(x: bv16, y: bv16)
    ensures Up(Xor(x, y)) == Xor(Up(x), Up(y))
  {
  }

  function Taps(b: bool): bv16 { if b then 0x1021 else 0 }

  lemma TapsAreLinear(a: bool, b: bool)
    ensures Taps(a != b) == Xor(Taps(a), Taps(b))
  {
  }

  lemma ShiftTaps(x: bv16)
    ensures Shift(x) == Xor(Up(x), Taps(TopSet(x)))
  {
    hide TopSet;
    if TopSet(x) {
      assert Xor(Up(x), 0x1021) == (x << 1) ^ 0x1021;
    } else {
      XorZero(Up(x));
    }
  }

  lemma ShiftIsLinear(x: bv16, y: bv16)
    ensures Shift(Xor(x, y)) == Xor(Shift(x), Shift(y))
  {
    hide Shift, Xor, Up, Taps, TopSet;
    ShiftTaps(x);
    ShiftTaps(y);
    ShiftTaps(Xor(x, y));
    TopSetIsLinear(x, y);
    UpIsLinear(x, y);
    TapsAreLinear(TopSet(x), TopSet(y));
    XorExchanges(Up(x), Up(y), Taps(TopSet(x)), Taps(TopSet(y)));
  }

  lemma ShiftLosesNothing(x: bv16)
    ensures Shift(x) == 0 <==> x == 0
  {
  }

  lemma {:induction false} ShiftsLoseNothing(x: bv16, n: nat)
    ensures Shifts(x, n) == 0 <==> x == 0
    decreases n
  {
    hide Shift;
    if n > 0 {
      ShiftLosesNothing(x);
      ShiftsLoseNothing(Shift(x), n - 1);
    }
  }

  // ---------------------------------------------------------------------------
  // Bit by bit
  // ---------------------------------------------------------------------------

  /** Feed message bits into the register, one shift each. */
  function Feed(r: bv16, bits: seq<bool>): bv16
    decreases |bits|
  {
    if bits == [] then r else Feed(Shift(Xor(r, Top(bits[0]))), bits[1..])
  }

  lemma {:induction false} FeedAppends(r: bv16, a: seq<bool>, b: seq<bool>)
    ensures Feed(r, a + b) == Feed(Feed(r, a), b)
    decreases |a|
  {
    hide Shift, Xor, Top;
    if a == [] {
      assert a + b == b;
    } else {
      assert (a + b)[1..] == a[1..] + b;
      FeedAppends(Shift(Xor(r, Top(a[0]))), a[1..], b);
    }
  }

  /** The first n bits of a register, top down. */
  function TopBits(x: bv16, n: nat): (bits: seq<bool>)
    ensures |bits| == n
    decreases n
  {
    if n == 0 then [] else [TopSet(x)] + TopBits(Up(x), n - 1)
  }

  /** The bits of a byte, most significant first. */
  function Bits(b: bv8): (bits: seq<bool>)
    ensures |bits| == 8
  {
    TopBits(Raised(b), 8)
  }

  function AllBits(data: seq<bv8>): (bits: seq<bool>)
    ensures |bits| == 8 * |data|
  {
    if data == [] then [] else AllBits(data[..|data| - 1]) + Bits(data[|data| - 1])
  }

  // ---------------------------------------------------------------------------
  // Up to sixteen bits at once
  // ---------------------------------------------------------------------------

  /** The bits laid into a register from the top down. */
  function Pack(bits: seq<bool>): bv16 {
    if bits == [] then 0 else Xor(Top(bits[0]), Half(Pack(bits[1..])))
  }

  /** The bits of the register that n packed bits leave clear. */
  function Below(n: nat): bv16 { if n == 0 then 0xFFFF else Half(Below(n - 1)) }

  predicate Disjoint(x: bv16, m: bv16) { x & m == 0 }

  lemma BelowHasLowest(n: nat)
    requires n <= 15
    ensures Below(n) & 1 == 1
  {
    assert Below(1) == 0x7FFF && Below(2) == 0x3FFF && Below(3) == 0x1FFF && Below(4) == 0xFFF;
    assert Below(5) == 0x7FF && Below(6) == 0x3FF && Below(7) == 0x1FF && Below(8) == 0xFF;
    assert Below(9) == 0x7F && Below(10) == 0x3F && Below(11) == 0x1F && Below(12) == 0xF;
    assert Below(13) == 7 && Below(14) == 3 && Below(15) == 1;
  }

  lemma MaskStep(b: bool, x: bv16, m: bv16)
    requires Disjoint(x, m)
    ensures Disjoint(Xor(Top(b), Half(x)), Half(m))
  {
    assert 0x8000 & (m >> 1) == 0;
    assert (x >> 1) & (m >> 1) == (x & m) >> 1;
  }

  lemma LowestIsClear(x: bv16, m: bv16)
    requires Disjoint(x, m) && m & 1 == 1
    ensures LowClear(x)
  {
  }

  lemma NothingDisjoint(m: bv16)
    ensures Disjoint(0, m)
  {
  }

  lemma {:induction false} PackIsAligned(bits: seq<bool>)
    ensures Disjoint(Pack(bits), Below(|bits|))
  {
    hide Xor, Top, Half, Disjoint;
    if bits == [] {
      NothingDisjoint(Below(0));
    } else {
      PackIsAligned(bits[1..]);
      MaskStep(bits[0], Pack(bits[1..]), Below(|bits| - 1));
    }
  }

  lemma PackHasRoom(bits: seq<bool>)
    requires |bits| <= 15
    ensures LowClear(Pack(bits))
  {
    hide Pack, Below, Disjoint;
    PackIsAligned(bits);
    BelowHasLowest(|bits|);
    LowestIsClear(Pack(bits), Below(|bits|));
  }

  /** A register whose top bit is clear only moves up when it is shifted. */
  lemma HalfShiftsBack(x: bv16)
    requires LowClear(x)
    ensures Shift(Half(x)) == x
  {
  }

  lemma AbsorbOneBit(r: bv16, b: bool, rest: bv16)
    requires LowClear(rest)
    ensures Shift(Xor(r, Xor(Top(b), Half(rest)))) == Xor(Shift(Xor(r, Top(b))), rest)
  {
    hide Shift, Xor, Top, Half;
    XorAssociates(r, Top(b), Half(rest));
    ShiftIsLinear(Xor(r, Top(b)), Half(rest));
    HalfShiftsBack(rest);
  }

  /** Feeding up to sixteen bits is laying them in and shifting that often. */
  lemma {:induction false} FeedPacks(r: bv16, bits: seq<bool>)
    requires |bits| <= 16
    ensures Feed(r, bits) == Shifts(Xor(r, Pack(bits)), |bits|)
    decreases |bits|
  {
    hide Shift, Xor, Top, Half, LowClear;
    if bits == [] {
      XorZero(r);
    } else {
      var rest := bits[1..];
      PackHasRoom(rest);
      AbsorbOneBit(r, bits[0], Pack(rest));
      FeedPacks(Shift(Xor(r, Top(bits[0]))), rest);
    }
  }

  lemma NothingPacked(b: bool, x: bv16)
    requires LowClear(x)
    ensures Xor(Top(b), Half(x)) == 0 <==> !b && x == 0
  {
  }

  predicate AllClear(bits: seq<bool>) { forall i | 0 <= i < |bits| :: !bits[i] }

  lemma {:induction false} PackIsFaithful(bits: seq<bool>)
    requires |bits| <= 16
    ensures Pack(bits) == 0 <==> AllClear(bits)
  {
    hide Xor, Top, Half, LowClear;
    if bits != [] {
      var rest := bits[1..];
      PackHasRoom(rest);
      PackIsFaithful(rest);
      NothingPacked(bits[0], Pack(rest));
      assert forall i | 0 <= i < |rest| :: rest[i] == bits[i + 1];
      assert forall i | 1 <= i < |bits| :: bits[i] == rest[i - 1];
    }
  }

  // ---------------------------------------------------------------------------
  // The byte loop is the bit loop
  // ---------------------------------------------------------------------------

  /** Nothing is left of a register moved up n times. */
  predicate Spent(x: bv16, n: nat)
    decreases n
  {
    if n == 0 then x == 0 else Spent(Up(x), n - 1)
  }

  lemma SplitTop(x: bv16)
    ensures Xor(Top(TopSet(x)), Half(Up(x))) == x
  {
    assert x & 0x8000 == 0 || x & 0x8000 == 0x8000;
    assert (x & 0x8000) ^ ((x << 1) >> 1) == x;
  }

  lemma {:induction false} PackOfTopBits(x: bv16, n: nat)
    requires Spent(x, n)
    ensures Pack(TopBits(x, n)) == x
    decreases n
  {
    hide Xor, Top, TopSet, Half, Up;
    if n > 0 {
      PackOfTopBits(Up(x), n - 1);
      assert TopBits(x, n)[1..] == TopBits(Up(x), n - 1);
      SplitTop(x);
    }
  }

  lemma MaskUp(x: bv16, m: bv16)
    requires Disjoint(x, Half(m))
    ensures Disjoint(Up(x), m)
  {
    assert (x << 1) & m == (x & (m >> 1)) << 1;
  }

  lemma NothingLeft(x: bv16)
    requires Disjoint(x, 0xFFFF)
    ensures x == 0
  {
  }

  lemma {:induction false} AlignedIsSpent(x: bv16, n: nat)
    requires Disjoint(x, Below(n))
    ensures Spent(x, n)
    decreases n
  {
    hide Disjoint, Up, Half;
    if n == 0 {
      NothingLeft(x);
    } else {
      MaskUp(x, Below(n - 1));
      AlignedIsSpent(Up(x), n - 1);
    }
  }

  lemma RaisedIsSpent(b: bv8)
    ensures Spent(Raised(b), 8)
  {
    hide Spent;
    assert Below(4) == 0xFFF;
    assert Below(6) == 0x3FF;
    assert Below(8) == 0xFF;
    RaisedIsDisjoint(b);
    AlignedIsSpent(Raised(b), 8);
  }

  lemma RaisedIsDisjoint(b: bv8)
    ensures Disjoint(Raised(b), 0xFF)
  {
  }

  lemma AbsorbFeeds(r: bv16, b: bv8)
    ensures Absorb(r, b) == Feed(r, Bits(b))
  {
    hide Pack, Shifts, Feed, Xor, Raised, TopBits, Spent;
    FeedPacks(r, Bits(b));
    RaisedIsSpent(b);
    PackOfTopBits(Raised(b), 8);
  }

  lemma {:induction false} CrcFeeds(r: bv16, data: seq<bv8>)
    ensures Crc(r, data) == Feed(r, AllBits(data))
  {
    hide Absorb, Bits, Shift, Xor, Top;
    if data != [] {
      var init, last := data[..|data| - 1], data[|data| - 1];
      CrcFeeds(r, init);
      AbsorbFeeds(Feed(r, AllBits(init)), last);
      FeedAppends(r, AllBits(init), Bits(last));
    }
  }

  // ---------------------------------------------------------------------------
  // Linearity
  // ---------------------------------------------------------------------------

  /** Where two bit sequences differ. */
  function Diff(a: seq<bool>, b: seq<bool>): seq<bool>
    requires |a| == |b|
  {
    seq(|a|, i requires 0 <= i < |a| => a[i] != b[i])
  }

  lemma {:induction false} FeedIsLinear(r: bv16, s: bv16, a: seq<bool>, b: seq<bool>)
    requires |a| == |b|
    ensures Feed(Xor(r, s), Diff(a, b)) == Xor(Feed(r, a), Feed(s, b))
    decreases |a|
  {
    hide Shift, Top, Xor;
    if a != [] {
      assert Diff(a, b)[1..] == Diff(a[1..], b[1..]);
      TopIsLinear(a[0], b[0]);
      XorExchanges(r, s, Top(a[0]), Top(b[0]));
      ShiftIsLinear(Xor(r, Top(a[0])), Xor(s, Top(b[0])));
      FeedIsLinear(Shift(Xor(r, Top(a[0]))), Shift(Xor(s, Top(b[0]))), a[1..], b[1..]);
    }
  }

  /** The difference of two checksums is what the difference of the messages leaves in an empty register. */
  lemma CrcDifference(r: bv16, a: seq<bv8>, b: seq<bv8>)
    requires |a| == |b|
    ensures Xor(Crc(r, a), Crc(r, b)) == Feed(0, Diff(AllBits(a), AllBits(b)))
  {
    hide Feed, Crc, Xor, AllBits, Diff;
    CrcFeeds(r, a);
    CrcFeeds(r, b);
    FeedIsLinear(r, r, AllBits(a), AllBits(b));
    XorCancels(r, r);
  }

  // ---------------------------------------------------------------------------
  // Bursts
  // ---------------------------------------------------------------------------

  lemma {:induction false} FeedClear(r: bv16, bits: seq<bool>)
    requires AllClear(bits)
    ensures Feed(r, bits) == Shifts(r, |bits|)
    decreases |bits|
  {
    hide Shift, Xor;
    if bits != [] {
      XorZero(r);
      FeedClear(Shift(r), bits[1..]);
    }
  }

  /** The bits are clear outside a window of sixteen, and not all clear. */
  ghost predicate IsBurst(bits: seq<bool>, start: nat) {
    && (forall i | 0 <= i < |bits| && !(start <= i < start + 16) :: !bits[i])
    && !AllClear(bits)
  }

  /** What sixteen bits at most, not all clear, leave in an empty register. */
  lemma WindowLeavesRemainder(window: seq<bool>)
    requires |window| <= 16 && !AllClear(window)
    ensures Feed(0, window) != 0
  {
    hide Feed, Shifts, Pack, Xor, AllClear;
    FeedPacks(0, window);
    PackIsFaithful(window);
    XorZero(Pack(window));
    ShiftsLoseNothing(Pack(window), |window|);
  }

  lemma BurstLeavesRemainder(bits: seq<bool>, start: nat)
    requires IsBurst(bits, start)
    ensures Feed(0, bits) != 0
  {
    hide Feed, Shifts;
    var from := if start < |bits| then start else |bits|;
    var to := if start + 16 < |bits| then start + 16 else |bits|;
    var before, window, after := bits[..from], bits[from..to], bits[to..];
    assert bits == before + (window + after);
    FeedAppends(0, before, window + after);
    FeedAppends(Feed(0, before), window, after);
    FeedClear(0, before);
    ShiftsLoseNothing(0, |before|);
    assert !AllClear(window) by {
      var i :| 0 <= i < |bits| && bits[i];
      assert window[i - from] == bits[i];
    }
    WindowLeavesRemainder(window);
    FeedClear(Feed(0, window), after);
    ShiftsLoseNothing(Feed(0, window), |after|);
  }

  /** No two messages of a length, whatever the preset, that differ in a burst have the same checksum. */
  lemma BurstChangesCrc(r: bv16, a: seq<bv8>, b: seq<bv8>, start: nat)
    requires |a| == |b| && IsBurst(Diff(AllBits(a), AllBits(b)), start)
    ensures Crc(r, a) != Crc(r, b)
  {
    hide Feed, Crc, Xor, Diff, AllBits, IsBurst;
    CrcDifference(r, a, b);
    BurstLeavesRemainder(Diff(AllBits(a), AllBits(b)), start);
    XorCancels(Crc(r, a), Crc(r, b));
  }

  /** The flips among the covered bits. */
  function Flips(packet: seq<bv8>, changed: seq<bv8>): seq<bool>
    requires |packet| == |changed| == PACKET_BYTES
  {
    Diff(AllBits(Covered(packet)), AllBits(Covered(changed)))
  }

  /** A verified packet changed within sixteen consecutive covered bits is rejected. */
  lemma BurstIsRejected(packet: seq<bv8>, changed: seq<bv8>, start: nat)
    requires |packet| == |changed| == PACKET_BYTES && Verifies(packet)
    requires Stored(changed) == Stored(packet)
    requires IsBurst(Flips(packet, changed), start)
    ensures !Verifies(changed)
  {
    hide Crc, AllBits, Diff, IsBurst, Covered, Stored;
    BurstChangesCrc(PRESET, Covered(packet), Covered(changed), start);
  }

  /** Exactly the changes whose remainder matches the change of the stored checksum go unnoticed. */
  lemma AcceptedChangesExactly(packet: seq<bv8>, changed: seq<bv8>)
    requires |packet| == |changed| == PACKET_BYTES && Verifies(packet)
    ensures Verifies(changed) <==> Feed(0, Flips(packet, changed)) == Xor(Stored(packet), Stored(changed))
  {
    hide Feed, Crc, AllBits, Diff, Covered, Stored, Xor;
    CrcDifference(PRESET, Covered(packet), Covered(changed));
    XorMatches(Stored(packet), Crc(PRESET, Covered(changed)), Stored(changed));
  }
}
