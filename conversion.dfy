/**
 * The arithmetic half of the driver: how the bytes of a burst read become a
 * raw sample, and how a raw sample becomes a reading. Readings are exact
 * reals; the driver's `float` rounding is not modelled.
 *
 * The sample registers hold fixed-point numbers in their top bits: pressure
 * is a 20-bit unsigned value with two fractional bits, altitude a 20-bit
 * signed value with four fractional bits, temperature a 12-bit signed value
 * with four fractional bits. The low four bits of the last byte are padding,
 * which the driver drops with `>> 4`.
 */
module Conversion {

  import opened Wire

  // ---------------------------------------------------------------------------
  // Raw samples: bytes read most significant first.
  // ---------------------------------------------------------------------------

  /** The value of three bytes taken most significant first. */
  function Raw24(b0: Byte, b1: Byte, b2: Byte): (v: nat)
    ensures v < 0x100_0000
  {
    b0 as nat * 0x1_0000 + b1 as nat * 0x100 + b2 as nat
  }

  /** The value of two bytes taken most significant first. */
  function Raw16(b0: Byte, b1: Byte): (v: nat)
    ensures v < 0x1_0000
  {
    b0 as nat * 0x100 + b1 as nat
  }

  /** Three bytes combined as the driver does: `x = b0; x <<= 8; x |= b1; x <<= 8; x |= b2`. */
  function Assemble24(b0: Byte, b1: Byte, b2: Byte): bv32
  {
    ((((b0 as bv32) << 8) | b1 as bv32) << 8) | b2 as bv32
  }

  /** Two bytes combined as the driver does on a uint16_t: `t = b0; t <<= 8; t |= b1`. */
  function Assemble16(b0: Byte, b1: Byte): bv16
  {
    ((b0 as bv16) << 8) | b1 as bv16
  }

  /** The three low bytes of a register value, most significant first. */
  function Split24(raw: bv32): (Byte, Byte, Byte)
  {
    (((raw >> 16) & 0xFF) as Byte, ((raw >> 8) & 0xFF) as Byte, (raw & 0xFF) as Byte)
  }

  /** Splitting a 24-bit value into bytes and assembling them gives the value back. */
  lemma SplitThenAssemble(raw: bv32)
    requires raw < 0x100_0000
    ensures var (b0, b1, b2) := Split24(raw); Assemble24(b0, b1, b2) == raw
  {
  }

  /** Assembling three bytes gives a 24-bit value, and splitting it gives the bytes back. */
  lemma AssembleThenSplit(b0: Byte, b1: Byte, b2: Byte)
    ensures Assemble24(b0, b1, b2) < 0x100_0000
    ensures Split24(Assemble24(b0, b1, b2)) == (b0, b1, b2)
  {
  }

  /** Shift-and-OR assembly is positional notation in base 256. */
  lemma AssembleIsPositional24(b0: Byte, b1: Byte, b2: Byte)
    ensures Assemble24(b0, b1, b2) as int == Raw24(b0, b1, b2)
  {
    // The solver relates bit-vector and integer values cheaply only on the
    // unfolded expression, so the fact is stated there first.
    assert (((((b0 as bv32) << 8) | b1 as bv32) << 8) | b2 as bv32) as int
        == b0 as int * 0x1_0000 + b1 as int * 0x100 + b2 as int;
  }

  /** Dropping the four padding bits of the assembled value divides the positional value by 16. */
  lemma ShiftedSample24(b0: Byte, b1: Byte, b2: Byte)
    ensures (Assemble24(b0, b1, b2) >> 4) as int == Raw24(b0, b1, b2) / 16
  {
    assert ((((((b0 as bv32) << 8) | b1 as bv32) << 8) | b2 as bv32) >> 4) as int
        == (b0 as int * 0x1_0000 + b1 as int * 0x100 + b2 as int) / 16;
  }

  /** The same on two bytes, before and after dropping the padding. */
  lemma AssembleIsPositional16(b0: Byte, b1: Byte)
    ensures Assemble16(b0, b1) as int == Raw16(b0, b1)
    ensures (Assemble16(b0, b1) >> 4) as int == Raw16(b0, b1) / 16
  {
    assert (((b0 as bv16) << 8) | b1 as bv16) as int == b0 as int * 0x100 + b1 as int;
    assert ((((b0 as bv16) << 8) | b1 as bv16) >> 4) as int == (b0 as int * 0x100 + b1 as int) / 16;
  }

  // ---------------------------------------------------------------------------
  // Conversions as the driver writes them.
  // ---------------------------------------------------------------------------

  /** Pressure: `pressure >>= 4` on a uint32_t, then the value divided by 4. */
  function PressureFromRaw(pressure: bv32): real
  {
    (pressure >> 4) as int as real / 4.0
  }

  /** The int32_t that holds the given 32 bits (two's complement). */
  function Int32(v: bv32): int
  {
    if v < 0x8000_0000 then v as int else v as int - 0x1_0000_0000
  }

  /** `>>= 4` on an int32_t: an arithmetic shift, which copies the sign bit into the four top bits. */
  function ShiftRight4Signed(v: bv32): bv32
  {
    if v & 0x8000_0000 != 0 then (v >> 4) | 0xF000_0000 else v >> 4
  }

  /**
   * Altitude as written: `alt >>= 4`, then the test `alt & 0x800000` and, when
   * it fires, `alt |= 0xFF000000`; the int32_t is then divided by 16.
   */
  function AltitudeFromRaw(alt: bv32): real
  {
    var shifted := ShiftRight4Signed(alt);
    var extended := if shifted & 0x80_0000 != 0 then shifted | 0xFF00_0000 else shifted;
    Int32(extended) as real / 16.0
  }

  /** Temperature: `t >>= 4` on a uint16_t, then the value divided by 16; never sign-extended. */
  function TemperatureFromRaw(t: bv16): real
  {
    (t >> 4) as int as real / 16.0
  }

  // ---------------------------------------------------------------------------
  // Readings as the device defines them, on the positional value of the bytes.
  // ---------------------------------------------------------------------------

  function Pow2(n: nat): (p: nat)
    ensures p >= 1
  {
    if n == 0 then 1 else 2 * Pow2(n - 1)
  }

  lemma {:induction false} Pow2Add(a: nat, b: nat)
    ensures Pow2(a + b) == Pow2(a) * Pow2(b)
  {
    if a > 0 {
      Pow2Add(a - 1, b);
    }
  }

  /** The powers of two the sample widths need. */
  lemma Pow2Widths()
    ensures Pow2(11) == 0x800 && Pow2(12) == 0x1000
    ensures Pow2(19) == 0x8_0000 && Pow2(20) == 0x10_0000
  {
    assert Pow2(3) == 8;
    assert Pow2(8) == 0x100 by { Pow2Add(3, 3); Pow2Add(6, 2); }
    assert Pow2(11) == 0x800 by { Pow2Add(8, 3); }
    assert Pow2(12) == 0x1000 by { Pow2Add(11, 1); }
    assert Pow2(19) == 0x8_0000 by { Pow2Add(11, 8); }
    Pow2Add(19, 1);
  }

  /** The two's-complement value of a `width`-bit field `v`: its top bit, when set, counts negative. */
  function SignExtend(v: nat, width: nat): (r: int)
    requires 0 < width && v < Pow2(width)
    ensures -(Pow2(width - 1) as int) <= r < Pow2(width - 1)
    ensures r < 0 <==> v >= Pow2(width - 1)
    ensures r + (if r < 0 then Pow2(width) else 0) == v
  {
    if v < Pow2(width - 1) then v else v - Pow2(width)
  }

  /** Pressure in pascals: the 20-bit unsigned sample above the padding, with two fractional bits. */
  function PressurePa(raw: nat): real
  {
    (raw / 16) as real / 4.0
  }

  /** Altitude in metres: the 20-bit two's-complement sample above the padding, with four fractional bits. */
  function AltitudeMeters(raw: nat): real
    requires raw < 0x100_0000
  {
    Pow2Widths();
    SignExtend(raw / 16, 20) as real / 16.0
  }

  /** Temperature in degrees Celsius: the 12-bit two's-complement sample above the padding, with four fractional bits. */
  function TemperatureCelsius(raw: nat): real
    requires raw < 0x1_0000
  {
    Pow2Widths();
    SignExtend(raw / 16, 12) as real / 16.0
  }

  /** The sample above the padding read unsigned, with four fractional bits: what the driver computes for altitude and temperature. */
  function UnsignedQ4(raw: nat): real
  {
    (raw / 16) as real / 16.0
  }

  /** Pressure is never negative and stays below 2^18 Pa. */
  lemma PressureRange(raw: nat)
    requires raw < 0x100_0000
    ensures 0.0 <= PressurePa(raw) < 262144.0
  {
    assert raw / 16 < 0x10_0000;
  }

  /** A larger raw sample never gives a smaller pressure. */
  lemma PressureMonotone(u: nat, w: nat)
    requires u <= w
    ensures PressurePa(u) <= PressurePa(w)
  {
    assert u / 16 <= w / 16;
  }

  /** Altitude spans [-32768, 32768) m and is negative exactly when the top bit of the first byte is set. */
  lemma AltitudeRange(b0: Byte, b1: Byte, b2: Byte)
    ensures -32768.0 <= AltitudeMeters(Raw24(b0, b1, b2)) < 32768.0
    ensures AltitudeMeters(Raw24(b0, b1, b2)) < 0.0 <==> b0 >= 0x80
  {
    Pow2Widths();
    TopBitOfRaw24(b0, b1, b2);
  }

  /** Temperature spans [-128, 128) degC and is negative exactly when the top bit of the first byte is set. */
  lemma TemperatureRange(b0: Byte, b1: Byte)
    ensures -128.0 <= TemperatureCelsius(Raw16(b0, b1)) < 128.0
    ensures TemperatureCelsius(Raw16(b0, b1)) < 0.0 <==> b0 >= 0x80
  {
    Pow2Widths();
    TopBitOfRaw16(b0, b1);
  }

  /** The two ends of the altitude range: sample 0x80000 and sample 0x7FFFF. */
  lemma AltitudeBoundaries()
    ensures AltitudeMeters(Raw24(0x80, 0x00, 0x00)) == -32768.0
    ensures AltitudeMeters(Raw24(0x7F, 0xFF, 0xF0)) == 32767.9375
  {
    Pow2Widths();
  }

  /** The two ends of the temperature range: sample 0x800 and sample 0x7FF. */
  lemma TemperatureBoundaries()
    ensures TemperatureCelsius(Raw16(0x80, 0x00)) == -128.0
    ensures TemperatureCelsius(Raw16(0x7F, 0xF0)) == 127.9375
  {
    Pow2Widths();
  }

  lemma TopBitOfRaw24(b0: Byte, b1: Byte, b2: Byte)
    ensures Raw24(b0, b1, b2) / 16 >= 0x8_0000 <==> b0 >= 0x80
  {
    assert b0 >= 0x80 <==> b0 as int >= 0x80;
  }

  lemma TopBitOfRaw16(b0: Byte, b1: Byte)
    ensures Raw16(b0, b1) / 16 >= 0x800 <==> b0 >= 0x80
  {
    assert b0 >= 0x80 <==> b0 as int >= 0x80;
  }

  // ---------------------------------------------------------------------------
  // What the driver's conversions compute on the bytes of a burst read.
  // ---------------------------------------------------------------------------

  /** Pressure as the driver computes it is the pressure the device reports. */
  lemma PressureOfBytes(b0: Byte, b1: Byte, b2: Byte)
    ensures PressureFromRaw(Assemble24(b0, b1, b2)) == PressurePa(Raw24(b0, b1, b2))
  {
    ShiftedSample24(b0, b1, b2);
  }

  /**
   * After the shift a 24-bit value has at most 20 bits, so the test of bit 23
   * never fires and `alt |= 0xFF000000` is unreachable.
   */
  lemma AltitudeSignTestNeverFires(b0: Byte, b1: Byte, b2: Byte)
    ensures ShiftRight4Signed(Assemble24(b0, b1, b2)) & 0x80_0000 == 0
  {
    var x := Assemble24(b0, b1, b2);
    assert x == ((((b0 as bv32) << 8) | b1 as bv32) << 8) | b2 as bv32;
  }

  /** On a 24-bit register value the driver's altitude is the shifted value over 16. */
  lemma AltitudeOfRegister(x: bv32)
    requires x < 0x100_0000
    ensures AltitudeFromRaw(x) == (x >> 4) as int as real / 16.0
  {
    assert ShiftRight4Signed(x) == x >> 4;
    assert x >> 4 < 0x10_0000;
  }

  /** As written, altitude is the sample read unsigned: the sign test changes nothing. */
  lemma AltitudeOfBytes(b0: Byte, b1: Byte, b2: Byte)
    ensures AltitudeFromRaw(Assemble24(b0, b1, b2)) == UnsignedQ4(Raw24(b0, b1, b2))
  {
    AssembleThenSplit(b0, b1, b2);
    AltitudeOfRegister(Assemble24(b0, b1, b2));
    ShiftedSample24(b0, b1, b2);
  }

  /** Temperature as the driver computes it is the sample read unsigned. */
  lemma TemperatureOfBytes(b0: Byte, b1: Byte)
    ensures TemperatureFromRaw(Assemble16(b0, b1)) == UnsignedQ4(Raw16(b0, b1))
  {
    AssembleIsPositional16(b0, b1);
  }

  /** As written, altitude is never negative and stays below 65536 m. */
  lemma AltitudeAsWrittenRange(b0: Byte, b1: Byte, b2: Byte)
    ensures 0.0 <= AltitudeFromRaw(Assemble24(b0, b1, b2)) < 65536.0
  {
    AltitudeOfBytes(b0, b1, b2);
    assert Raw24(b0, b1, b2) / 16 < 0x10_0000;
  }

  /** As written, temperature is never negative and stays below 256 degC. */
  lemma TemperatureAsWrittenRange(b0: Byte, b1: Byte)
    ensures 0.0 <= TemperatureFromRaw(Assemble16(b0, b1)) < 256.0
  {
    TemperatureOfBytes(b0, b1);
    assert Raw16(b0, b1) / 16 < 0x1000;
  }

  /** A field read unsigned exceeds the same field read signed by 2^width exactly when its sign bit is set. */
  lemma SignedFieldWrap(v: nat, width: nat, scale: real)
    requires 0 < width && v < Pow2(width) && scale > 0.0
    ensures v as real / scale
         == SignExtend(v, width) as real / scale
            + (if v >= Pow2(width - 1) then Pow2(width) as real / scale else 0.0)
  {
  }

  /** As written, altitude is the signed altitude plus 65536 m whenever the altitude is negative. */
  lemma AltitudeMisreadByWrap(b0: Byte, b1: Byte, b2: Byte)
    ensures AltitudeFromRaw(Assemble24(b0, b1, b2))
         == AltitudeMeters(Raw24(b0, b1, b2)) + (if b0 >= 0x80 then 65536.0 else 0.0)
  {
    var raw := Raw24(b0, b1, b2);
    AltitudeOfBytes(b0, b1, b2);
    TopBitOfRaw24(b0, b1, b2);
    Pow2Widths();
    SignedFieldWrap(raw / 16, 20, 16.0);
  }

  /** As written, temperature is the signed temperature plus 256 degC whenever the temperature is negative. */
  lemma TemperatureMisreadByWrap(b0: Byte, b1: Byte)
    ensures TemperatureFromRaw(Assemble16(b0, b1))
         == TemperatureCelsius(Raw16(b0, b1)) + (if b0 >= 0x80 then 256.0 else 0.0)
  {
    var raw := Raw16(b0, b1);
    TemperatureOfBytes(b0, b1);
    TopBitOfRaw16(b0, b1);
    Pow2Widths();
    SignedFieldWrap(raw / 16, 12, 16.0);
  }

  /** Bytes FF FF F0 encode -1/16 m; the driver returns 65535.9375 m. */
  lemma NegativeAltitudeMisread()
    ensures AltitudeMeters(Raw24(0xFF, 0xFF, 0xF0)) == -0.0625
    ensures AltitudeFromRaw(Assemble24(0xFF, 0xFF, 0xF0)) == 65535.9375
  {
    AltitudeMisreadByWrap(0xFF, 0xFF, 0xF0);
  }

  /** Bytes FF F0 encode -1/16 degC; the driver returns 255.9375 degC. */
  lemma NegativeTemperatureMisread()
    ensures TemperatureCelsius(Raw16(0xFF, 0xF0)) == -0.0625
    ensures TemperatureFromRaw(Assemble16(0xFF, 0xF0)) == 255.9375
  {
    TemperatureMisreadByWrap(0xFF, 0xF0);
  }
}
