/**
 * The framing half of `SGP40Sensor.read_data`: the two compensation tick
 * values are split into `[high, low, crc]` triples behind the two-byte
 * "measure raw signal" command, and the first two bytes of the response are
 * joined back into the raw 16-bit signal.
 *
 * Ticks are taken as the integers the source computes from the compensation
 * temperature and humidity; the floating-point conversion itself is not part
 * of this model. The bus is an oracle from the written command to the bytes
 * read back, or `None` when the transaction raised.
 */
module Sgp40Frame {
  import opened Wrappers
  import opened Crc8

  const MeasureRawCommand: seq<Byte> := [0x26, 0x0F]

  /** `x & 0xFFFF` on a Python int; Python's `&` sees two's complement, so a negative tick wraps. */
  function Mask16(x: int): (t: nat)
    ensures t < 0x10000
    ensures (x - t) % 0x10000 == 0
  {
    x % 0x10000
  }

  /** `(t >> 8) & 0xFF` */
  function HighByte(t: nat): Byte {
    (t / 256) % 256
  }

  /** `t & 0xFF` */
  function LowByte(t: nat): Byte {
    t % 256
  }

  /** `(hi << 8) | lo`: the two bytes of a response as one unsigned 16-bit value. */
  function Word(hi: Byte, lo: Byte): (v: nat)
    ensures v < 0x10000
  {
    hi * 256 + lo
  }

  /** Splitting a 16-bit value into two bytes and joining them gives it back. */
  lemma JoinSplit(t: nat)
    requires t < 0x10000
    ensures Word(HighByte(t), LowByte(t)) == t
  {
    var q := t / 256;
    assert t == 256 * q + t % 256;
    assert q < 256;
  }

  /** The three bytes sent for one tick value: the split loses nothing and the third byte is its CRC. */
  function TickWord(t: nat): (w: seq<Byte>)
    requires t < 0x10000
    ensures |w| == 3
    ensures Word(w[0], w[1]) == t
    ensures w[2] == Crc(w[..2])
  {
    var pair := [HighByte(t), LowByte(t)];
    JoinSplit(t);
    assert pair == (pair + [Crc(pair)])[..2];
    pair + [Crc(pair)]
  }

  /** Splitting a word that was joined from two bytes gives the two bytes back. */
  lemma SplitWord(hi: Byte, lo: Byte)
    ensures HighByte(Word(hi, lo)) == hi && LowByte(Word(hi, lo)) == lo
  {
  }

  /**
   * The eight bytes written: command, humidity word, temperature word.
   * Each word carries its own checksum and decodes to the tick it encodes.
   */
  function CompensatedCommand(humTicks: nat, tempTicks: nat): (cmd: seq<Byte>)
    requires humTicks < 0x10000 && tempTicks < 0x10000
    ensures |cmd| == 8 && cmd[..2] == MeasureRawCommand
    ensures Word(cmd[2], cmd[3]) == humTicks && cmd[4] == Crc(cmd[2..4])
    ensures Word(cmd[5], cmd[6]) == tempTicks && cmd[7] == Crc(cmd[5..7])
  {
    var h, t := TickWord(humTicks), TickWord(tempTicks);
    var cmd := MeasureRawCommand + h + t;
    assert cmd[2..4] == h[..2] && cmd[5..7] == t[..2];
    cmd
  }

  /**
   * `read_data(temperature, humidity)` with the ticks already computed: no
   * command unless both inputs are present; `None` when the bus raised or
   * returned too few bytes; otherwise the first two response bytes as an
   * unsigned 16-bit value.
   */
  function ReadData(tempTicks: Option<int>, humTicks: Option<int>,
                    transfer: seq<Byte> -> Option<seq<Byte>>): (r: Option<nat>)
    ensures tempTicks.None? || humTicks.None? ==> r.None?
    ensures r.Some? ==> r.value < 0x10000
    ensures tempTicks.Some? && humTicks.Some? ==>
      var response := transfer(CompensatedCommand(Mask16(humTicks.value), Mask16(tempTicks.value)));
      && (r.Some? <==> response.Some? && |response.value| >= 2)
      && (r.Some? ==> r.value == Word(response.value[0], response.value[1]))
  {
    if tempTicks.Some? && humTicks.Some? then
      var command := CompensatedCommand(Mask16(humTicks.value), Mask16(tempTicks.value));
      match transfer(command)
      case None => None
      case Some(response) =>
        if |response| < 2 then None else Some(Word(response[0], response[1]))
    else
      None
  }
}
