/**
 * The sample side of the IST8308 driver: the block read of the status byte
 * and the six data bytes, the data-ready gate, and the reconstruction of a
 * signed 16-bit axis value from its high and low bytes.
 */
module Decode {

  /** Smallest and one past the largest value of a C `int16_t`. */
  const INT16_MIN: int := -0x8000
  const INT16_END: int := 0x8000

  /** The shift-or of a byte pair, read as an unsigned number, is `msb * 256 + lsb`. */
  lemma ShiftOrValue(msb: bv8, lsb: bv8)
    ensures ((msb as bv16 << 8) | lsb as bv16) as int == msb as int * 256 + lsb as int
  {
  }

  /** The C expression `(msb << 8u) | lsb` before its conversion to `int16_t`. */
  function Word(msb: bv8, lsb: bv8): (w: int)
    ensures w == msb as int * 256 + lsb as int
    ensures 0 <= w < 0x10000
    ensures w < 0x8000 <==> msb < 0x80
  {
    ShiftOrValue(msb, lsb);
    ((msb as bv16 << 8) | lsb as bv16) as int
  }

  /**
   * The axis value rebuilt from a byte pair: the 16-bit word converted to a
   * signed 16-bit integer (two's complement), so it is negative iff the top
   * bit of msb is set.
   */
  function Combine(msb: bv8, lsb: bv8): (r: int)
    ensures INT16_MIN <= r < INT16_END
    ensures r == if msb < 0x80 then Word(msb, lsb) else Word(msb, lsb) - 0x10000
  {
    var w := Word(msb, lsb);
    if w < 0x8000 then w else w - 0x10000
  }

  /** The closed form: `msb*256 + lsb` for a clear top bit, that minus 65536 otherwise. */
  lemma CombineValue(msb: bv8, lsb: bv8)
    ensures Combine(msb, lsb) == if msb < 0x80 then msb as int * 256 + lsb as int
                                 else msb as int * 256 + lsb as int - 0x10000
  {
  }

  /** A byte is determined by its numeric value. */
  lemma ByteInjective(x: bv8, y: bv8)
    requires x as int == y as int
    ensures x == y
  {
  }

  /** Base-256 digits are unique. */
  lemma DigitsInjective(hi: int, lo: int, hi': int, lo': int)
    requires 0 <= lo < 256 && 0 <= lo' < 256
    requires hi * 256 + lo == hi' * 256 + lo'
    ensures hi == hi' && lo == lo'
  {
  }

  /** No information is lost: distinct byte pairs decode to distinct axis values. */
  lemma {:induction false} CombineInjective(msb: bv8, lsb: bv8, msb': bv8, lsb': bv8)
    requires Combine(msb, lsb) == Combine(msb', lsb')
    ensures msb == msb' && lsb == lsb'
  {
    assert (msb < 0x80) == (msb' < 0x80);
    var w, w' := Word(msb, lsb), Word(msb', lsb');
    assert w == w';
    ShiftOrValue(msb, lsb);
    ShiftOrValue(msb', lsb');
    DigitsInjective(msb as int, lsb as int, msb' as int, lsb' as int);
    ByteInjective(msb, msb');
    ByteInjective(lsb, lsb');
  }

  /** The worked decoding example: (0x01,0x00), (0xFF,0xFF), (0x80,0x00). */
  lemma CombineExamples()
    ensures Combine(0x01, 0x00) == 256
    ensures Combine(0xFF, 0xFF) == -1
    ensures Combine(0x80, 0x00) == -32768
  {
  }

  /** The status byte and six data bytes of one block read, in bus order. */
  datatype TransferBuffer = TransferBuffer(
    stat: bv8,
    dataXL: bv8, dataXH: bv8,
    dataYL: bv8, dataYH: bv8,
    dataZL: bv8, dataZH: bv8)

  /** The zero-initialised buffer, which a failed transfer leaves untouched. */
  const EMPTY_BUFFER := TransferBuffer(0, 0, 0, 0, 0, 0, 0)

  /**
   * The data-ready gate as written: a LOGICAL and of the status byte and the
   * DRDY constant, so it holds for every nonzero status when DRDY is nonzero.
   */
  predicate DataReady(stat: bv8, drdy: bv8)
  {
    stat != 0 && drdy != 0
  }

  /** With a nonzero DRDY constant, a sample is published iff the status byte is nonzero. */
  lemma DataReadyIffNonzero(stat: bv8, drdy: bv8)
    requires drdy != 0
    ensures DataReady(stat, drdy) <==> stat != 0
  {
  }

  /** The gate accepts a status byte in which the DRDY bit itself is clear. */
  lemma DataReadyIgnoresBit(stat: bv8, drdy: bv8)
    requires drdy != 0 && stat != 0 && stat & drdy == 0
    ensures DataReady(stat, drdy)
  {
  }

  /** A published magnetometer sample: the sample time and the raw axis values. */
  datatype MagSample = MagSample(timestamp: nat, x: int, y: int, z: int)

  /** The sample a buffer decodes to, each axis rebuilt from its high and low byte. */
  function DecodeSample(timestamp: nat, b: TransferBuffer): (s: MagSample)
    ensures s.timestamp == timestamp
    ensures INT16_MIN <= s.x < INT16_END && INT16_MIN <= s.y < INT16_END && INT16_MIN <= s.z < INT16_END
    ensures s.x < 0 <==> b.dataXH >= 0x80
    ensures s.y < 0 <==> b.dataYH >= 0x80
    ensures s.z < 0 <==> b.dataZH >= 0x80
  {
    MagSample(timestamp,
              Combine(b.dataXH, b.dataXL),
              Combine(b.dataYH, b.dataYL),
              Combine(b.dataZH, b.dataZL))
  }
}
