/** The checksum of a radio packet: 16 bits, polynomial x^16 + x^12 + x^5 + 1
    (section 2 of ITU-T V.41), preset 0xFFFF, most significant bit first. */
module PacketCrc {
  const PACKET_BYTES := 65
  const COVERED_BYTES := 63
  const PRESET: bv16 := 0xFFFF

  // ---------------------------------------------------------------------------
  // The register
  // ---------------------------------------------------------------------------

  predicate TopSet(r: bv16) { r & 0x8000 != 0 }

  /** One shift of the register. */
  function Shift(r: bv16): bv16 {
    if TopSet(r) then (r << 1) ^ 0x1021 else r << 1
  }

  function Shifts(r: bv16, n: nat): bv16
    decreases n
  {
    if n == 0 then r else Shifts(Shift(r), n - 1)
  }

  /** A byte in the upper half of the register. */
  function Raised(byte: bv8): bv16 { (byte as bv16) << 8 }

  function Xor(x: bv16, y: bv16): bv16 { x ^ y }

  function Absorb(r: bv16, byte: bv8): bv16 { Shifts(Xor(r, Raised(byte)), 8) }

  function Crc(r: bv16, data: seq<bv8>): bv16 {
    if data == [] then r else Absorb(Crc(r, data[..|data| - 1]), data[|data| - 1])
  }

  lemma CrcAppends(r: bv16, data: seq<bv8>, byte: bv8)
    ensures Crc(r, data + [byte]) == Absorb(Crc(r, data), byte)
  {
    hide Absorb;
    assert (data + [byte])[..|data + [byte]| - 1] == data;
  }

  lemma NothingCovered(r: bv16)
    ensures Crc(r, []) == r
  {
  }

  method CalculateCrc16(data: array<bv8>, length: nat) returns (crc: bv16)
    requires length <= data.Length
    ensures crc == Crc(PRESET, data[..length])
  {
    hide Crc, Absorb;
    crc := PRESET;
    NothingCovered(PRESET);
    for i := 0 to length
      invariant crc == Crc(PRESET, data[..i])
    {
      crc := AbsorbByte(crc, data[i]);
      assert data[..i + 1] == data[..i] + [data[i]];
      CrcAppends(PRESET, data[..i], data[i]);
    }
  }

  /** The body of the byte loop: mix the byte in, then eight shifts. */
  method AbsorbByte(r: bv16, byte: bv8) returns (crc: bv16)
    ensures crc == Absorb(r, byte)
  {
    hide Xor, Raised, Shift;
    crc := Xor(r, Raised(byte));
    for bit := 0 to 8
      invariant Shifts(crc, 8 - bit) == Absorb(r, byte)
    {
      crc := ShiftOnce(crc);
    }
  }

  method ShiftOnce(r: bv16) returns (crc: bv16)
    ensures crc == Shift(r)
  {
    if r & 0x8000 != 0 {
      crc := (r << 1) ^ 0x1021;
    } else {
      crc := r << 1;
    }
  }

  // ---------------------------------------------------------------------------
  // The packet
  // ---------------------------------------------------------------------------

  function LowByte(crc: bv16): bv8 { (crc & 0xFF) as bv8 }

  function HighByte(crc: bv16): bv8 { (crc >> 8) as bv8 }

  function Joined(low: bv8, high: bv8): bv16 { (low as bv16) | ((high as bv16) << 8) }

  /** The stored checksum, low byte first. */
  function Stored(packet: seq<bv8>): bv16
    requires |packet| == PACKET_BYTES
  {
    Joined(packet[COVERED_BYTES], packet[COVERED_BYTES + 1])
  }

  function Covered(packet: seq<bv8>): (covered: seq<bv8>)
    requires |packet| == PACKET_BYTES
    ensures |covered| == COVERED_BYTES
  {
    packet[..COVERED_BYTES]
  }

  predicate Verifies(packet: seq<bv8>)
    requires |packet| == PACKET_BYTES
  {
    Crc(PRESET, Covered(packet)) == Stored(packet)
  }

  method VerifyPacketCrc(packet: array<bv8>) returns (ok: bool)
    requires packet.Length == PACKET_BYTES
    ensures ok == Verifies(packet[..])
  {
    hide Crc, Joined;
    var computed := CalculateCrc16(packet, COVERED_BYTES);
    assert Covered(packet[..]) == packet[..COVERED_BYTES];
    ok := computed == Joined(packet[COVERED_BYTES], packet[COVERED_BYTES + 1]);
  }

  /** Stamping writes the checksum, leaves the covered bytes alone, and the packet verifies. */
  method StampPacketCrc(packet: array<bv8>)
    requires packet.Length == PACKET_BYTES
    modifies packet
    ensures packet[..COVERED_BYTES] == old(packet[..COVERED_BYTES])
    ensures Stored(packet[..]) == Crc(PRESET, old(packet[..COVERED_BYTES]))
    ensures Verifies(packet[..])
  {
    hide Crc, LowByte, HighByte, Joined;
    var crc := CalculateCrc16(packet, COVERED_BYTES);
    packet[COVERED_BYTES] := LowByte(crc);
    packet[COVERED_BYTES + 1] := HighByte(crc);
    BytesRejoin(crc);
    assert Covered(packet[..]) == packet[..COVERED_BYTES] == old(packet[..COVERED_BYTES]);
  }

  lemma BytesRejoin(crc: bv16)
    ensures Joined(LowByte(crc), HighByte(crc)) == crc
  {
  }

  // ---------------------------------------------------------------------------
  // The check value
  // ---------------------------------------------------------------------------

  /** A byte more takes the checksum through eight shifts, given one by one. */
  lemma OneByteMore(
    data: seq<bv8>, byte: bv8, a: bv16, b: bv16, c: bv16, d: bv16, e: bv16, f: bv16, g: bv16, h: bv16, i: bv16)
    requires Xor(Crc(PRESET, data), Raised(byte)) == a
    requires Shift(a) == b && Shift(b) == c && Shift(c) == d && Shift(d) == e
    requires Shift(e) == f && Shift(f) == g && Shift(g) == h && Shift(h) == i
    ensures Crc(PRESET, data + [byte]) == i
  {
    hide Shift, Crc, Xor, Raised;
    CrcAppends(PRESET, data, byte);
    assert Shifts(e, 4) == i;
    assert Shifts(a, 8) == Shifts(e, 4);
  }

  /** The check value of this checksum: that of the nine digits "123456789". */
  lemma CheckValue()
    ensures Crc(PRESET, [0x31, 0x32, 0x33, 0x34, 0x35, 0x36, 0x37, 0x38, 0x39]) == 0x29B1
  {
    hide Crc;
    NothingCovered(PRESET);
    var digits: seq<bv8> := [];
    OneByteMore(digits, 0x31, 0xCEFF, 0x8DDF, 0x0B9F, 0x173E, 0x2E7C, 0x5CF8, 0xB9F0, 0x63C1, 0xC782);
    digits := digits + [0x31];
    OneByteMore(digits, 0x32, 0xF582, 0xFB25, 0xE66B, 0xDCF7, 0xA9CF, 0x43BF, 0x877E, 0x1EDD, 0x3DBA);
    digits := digits + [0x32];
    OneByteMore(digits, 0x33, 0x0EBA, 0x1D74, 0x3AE8, 0x75D0, 0xEBA0, 0xC761, 0x9EE3, 0x2DE7, 0x5BCE);
    digits := digits + [0x33];
    OneByteMore(digits, 0x34, 0x6FCE, 0xDF9C, 0xAF19, 0x4E13, 0x9C26, 0x286D, 0x50DA, 0xA1B4, 0x5349);
    digits := digits + [0x34];
    OneByteMore(digits, 0x35, 0x6649, 0xCC92, 0x8905, 0x022B, 0x0456, 0x08AC, 0x1158, 0x22B0, 0x4560);
    digits := digits + [0x35];
    OneByteMore(digits, 0x36, 0x7360, 0xE6C0, 0xDDA1, 0xAB63, 0x46E7, 0x8DCE, 0x0BBD, 0x177A, 0x2EF4);
    digits := digits + [0x36];
    OneByteMore(digits, 0x37, 0x19F4, 0x33E8, 0x67D0, 0xCFA0, 0x8F61, 0x0EE3, 0x1DC6, 0x3B8C, 0x7718);
    digits := digits + [0x37];
    OneByteMore(digits, 0x38, 0x4F18, 0x9E30, 0x2C41, 0x5882, 0xB104, 0x7229, 0xE452, 0xD885, 0xA12B);
    digits := digits + [0x38];
    OneByteMore(digits, 0x39, 0x982B, 0x2077, 0x40EE, 0x81DC, 0x1399, 0x2732, 0x4E64, 0x9CC8, 0x29B1);
    digits := digits + [0x39];
    assert digits == [0x31, 0x32, 0x33, 0x34, 0x35, 0x36, 0x37, 0x38, 0x39];
  }
}
