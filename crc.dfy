/**
 * Sensirion's CRC-8 (polynomial 0x31, initial value 0xFF, no reflection,
 * no final XOR), the checksum sent after every 16-bit word on the SGP40 bus.
 *
 * The specification `Crc` keeps the running value in eight bits at every
 * step. `GenerateCrc` follows the source loop, whose running value is an
 * unbounded integer that is shifted left eight times per byte and masked only
 * once, at the end; its contract proves the two agree.
 */
module Crc8 {

  /** A Python int holding one bus byte. */
  type Byte = b: int | 0 <= b < 256

  const Polynomial: Byte := 0x31
  const Init: Byte := 0xFF

  /** Bitwise XOR of two bytes. */
  function Xor(a: Byte, b: Byte): Byte {
    ((a as bv8) ^ (b as bv8)) as int
  }

  /** One bit step of the register: shift left, XOR the polynomial when bit 7 was set. */
  function ShiftBit(c: Byte): Byte {
    if c >= 0x80 then Xor((2 * c) % 256, Polynomial) else (2 * c) % 256
  }

  /** `k` bit steps. */
  function ShiftBits(c: Byte, k: nat): Byte {
    if k == 0 then c else ShiftBit(ShiftBits(c, k - 1))
  }

  /** Feeding one byte: XOR it in, then eight bit steps. */
  function Update(c: Byte, b: Byte): Byte {
    ShiftBits(Xor(c, b), 8)
  }

  /** The CRC-8 of `data`, processed first byte first. */
  function Crc(data: seq<Byte>): Byte {
    if |data| == 0 then Init else Update(Crc(data[..|data| - 1]), data[|data| - 1])
  }

  // ---------------------------------------------------------------------
  // The source's register: an unbounded non-negative integer.
  // ---------------------------------------------------------------------

  /** `c ^ b` on unbounded integers, for a byte `b`: only the low eight bits change. */
  function XorByte(c: nat, b: Byte): nat {
    (c / 256) * 256 + Xor(c % 256, b)
  }

  /** The unmasked bit step: `crc & 0x80` tests bit 7, `crc << 1` doubles. */
  function WideShift(c: nat): nat {
    if (c / 128) % 2 == 1 then XorByte(2 * c, Polynomial) else 2 * c
  }

  lemma XorByteLow(c: nat, b: Byte)
    ensures XorByte(c, b) % 256 == Xor(c % 256, b)
  {
  }

  lemma Bit7(c: nat)
    ensures (c / 128) % 2 == 1 <==> c % 256 >= 128
  {
    var q, r := c / 256, c % 256;
    assert c == 256 * q + r;
    assert c / 128 == 2 * q + r / 128;
  }

  lemma DoubleLow(c: nat)
    ensures (2 * c) % 256 == (2 * (c % 256)) % 256
  {
    var q, r := c / 256, c % 256;
    assert 2 * c == 256 * (2 * q) + 2 * r;
  }

  /**
   * Bits of the register above bit 7 never influence its low byte after a
   * bit step: masking before the step or after it gives the same byte.
   */
  lemma WideShiftLow(c: nat)
    ensures WideShift(c) % 256 == ShiftBit(c % 256)
  {
    Bit7(c);
    DoubleLow(c);
    if (c / 128) % 2 == 1 {
      XorByteLow(2 * c, Polynomial);
    }
  }

  /**
   * `SGP40Sensor.generate_crc`: the register starts at 0xFF, each byte is
   * XORed in and followed by eight unmasked bit steps, and only the final
   * value is masked to eight bits. The result is the CRC-8 of the buffer.
   */
  method GenerateCrc(buffer: seq<Byte>) returns (r: nat)
    ensures r < 256
    ensures r == Crc(buffer)
  {
    var crc: nat := 0xFF;
    for i := 0 to |buffer|
      invariant crc % 256 == Crc(buffer[..i])
    {
      XorByteLow(crc, buffer[i]);
      crc := XorByte(crc, buffer[i]);
      for k := 0 to 8
        invariant crc % 256 == ShiftBits(Xor(Crc(buffer[..i]), buffer[i]), k)
      {
        WideShiftLow(crc);
        if (crc / 128) % 2 == 1 {
          crc := XorByte(2 * crc, Polynomial);
        } else {
          crc := 2 * crc;
        }
      }
      assert buffer[..i + 1][..i] == buffer[..i];
    }
    assert buffer[..|buffer|] == buffer;
    r := crc % 256;
  }

  // The 0xBEEF check value below is proved one bit step at a time. Stated on
  // literals, `Update(0xFF, 0xBE)` lets the verifier unfold `ShiftBits` and
  // `Xor` into one large arithmetic term that exhausts its resources. So the
  // trace of the register is passed in as variables: `UpdateBySteps` turns a
  // checked trace into the value of `Update` (the trace is a hypothesis of
  // its ensures, which a caller discharges), and the two byte lemmas take
  // their inputs as variables pinned by `requires`, which keeps the literal
  // terms out of the unfolding.

  /** `Update` evaluated from the register after each of its eight bit steps. */
  lemma {:induction false} UpdateBySteps(c: Byte, b: Byte, t0: Byte, t1: Byte, t2: Byte, t3: Byte, t4: Byte,
                                         t5: Byte, t6: Byte, t7: Byte, t8: Byte)
    ensures t0 == Xor(c, b)
         && ShiftBit(t0) == t1 && ShiftBit(t1) == t2 && ShiftBit(t2) == t3 && ShiftBit(t3) == t4
         && ShiftBit(t4) == t5 && ShiftBit(t5) == t6 && ShiftBit(t6) == t7 && ShiftBit(t7) == t8
         ==> Update(c, b) == t8
  {
    if t0 == Xor(c, b)
       && ShiftBit(t0) == t1 && ShiftBit(t1) == t2 && ShiftBit(t2) == t3 && ShiftBit(t3) == t4
       && ShiftBit(t4) == t5 && ShiftBit(t5) == t6 && ShiftBit(t6) == t7 && ShiftBit(t7) == t8
    {
      var trace := [t0, t1, t2, t3, t4, t5, t6, t7, t8];
      for k := 0 to 8
        invariant ShiftBits(t0, k) == trace[k]
      {
      }
    }
  }

  /** The XORs the 0xBEEF check value needs, each evaluated on bytes. */
  lemma XorsOfBeef()
    ensures Xor(0xFF, 0xBE) == 0x41 && Xor(0x04, 0x31) == 0x35 && Xor(0xA8, 0x31) == 0x99 && Xor(0x32, 0x31) == 0x03
    ensures Xor(0x0C, 0xEF) == 0xE3 && Xor(0xC6, 0x31) == 0xF7 && Xor(0xEE, 0x31) == 0xDF
    ensures Xor(0xBE, 0x31) == 0x8F && Xor(0x1E, 0x31) == 0x2F && Xor(0x78, 0x31) == 0x49
  {
  }

  /** A bit step of a register with bit 7 clear only doubles it. */
  lemma ShiftLow(c: Byte)
    requires c < 0x80
    ensures ShiftBit(c) == 2 * c
  {
  }

  /** A bit step of a register with bit 7 set drops that bit and XORs in the polynomial. */
  lemma ShiftHigh(c: Byte)
    requires c >= 0x80
    ensures ShiftBit(c) == Xor(2 * c - 256, 0x31)
  {
    assert (2 * c) % 256 == 2 * c - 256;
  }

  /** The bit steps of the first byte, 0xBE fed into 0xFF. */
  lemma FirstBitSteps()
    ensures ShiftBit(0x41) == 0x82 && ShiftBit(0x82) == 0x35 && ShiftBit(0x35) == 0x6A && ShiftBit(0x6A) == 0xD4
    ensures ShiftBit(0xD4) == 0x99 && ShiftBit(0x99) == 0x03 && ShiftBit(0x03) == 0x06 && ShiftBit(0x06) == 0x0C
  {
    XorsOfBeef();
    ShiftLow(0x41); ShiftHigh(0x82); ShiftLow(0x35); ShiftLow(0x6A);
    ShiftHigh(0xD4); ShiftHigh(0x99); ShiftLow(0x03); ShiftLow(0x06);
  }

  /** The bit steps of the second byte, 0xEF fed into 0x0C. */
  lemma SecondBitSteps()
    ensures ShiftBit(0xE3) == 0xF7 && ShiftBit(0xF7) == 0xDF && ShiftBit(0xDF) == 0x8F && ShiftBit(0x8F) == 0x2F
    ensures ShiftBit(0x2F) == 0x5E && ShiftBit(0x5E) == 0xBC && ShiftBit(0xBC) == 0x49 && ShiftBit(0x49) == 0x92
  {
    XorsOfBeef();
    ShiftHigh(0xE3); ShiftHigh(0xF7); ShiftHigh(0xDF); ShiftHigh(0x8F);
    ShiftLow(0x2F); ShiftLow(0x5E); ShiftHigh(0xBC); ShiftLow(0x49);
  }

  /** Feeding 0xBE into the initial register 0xFF gives 0x0C. */
  lemma FirstByteOfBeef(c: Byte, b: Byte)
    requires c == 0xFF && b == 0xBE
    ensures Update(c, b) == 0x0C
  {
    XorsOfBeef();
    FirstBitSteps();
    UpdateBySteps(c, b, 0x41, 0x82, 0x35, 0x6A, 0xD4, 0x99, 0x03, 0x06, 0x0C);
  }

  /** Feeding 0xEF into 0x0C gives 0x92. */
  lemma SecondByteOfBeef(c: Byte, b: Byte)
    requires c == 0x0C && b == 0xEF
    ensures Update(c, b) == 0x92
  {
    XorsOfBeef();
    SecondBitSteps();
    UpdateBySteps(c, b, 0xE3, 0xF7, 0xDF, 0x8F, 0x2F, 0x5E, 0xBC, 0x49, 0x92);
  }

  /** The check value of Sensirion's datasheets: 0xBEEF gives 0x92. */
  lemma CrcOfBeef()
    ensures Crc([0xBE, 0xEF]) == 0x92
  {
    var d: seq<Byte> := [0xBE, 0xEF];
    assert d[..1][..0] == [];
    assert Crc(d[..1]) == Update(Init, d[0]);
    FirstByteOfBeef(Init, d[0]);
    assert Crc(d) == Update(Crc(d[..1]), d[1]);
    SecondByteOfBeef(Crc(d[..1]), d[1]);
  }
}
