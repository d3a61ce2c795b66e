# MPL3115A2 barometric sensor driver, modelled in Dafny

This project models the Adafruit driver for the MPL3115A2 pressure, altitude
and temperature sensor (`Adafruit_MPL3115A2.cpp`). It has two halves:

- **The register protocol.** The driver owns a pointer to an I2C bus object and
  drives it through ordered calls. `Wire.Bus` is that bus: a class that
  records every call as an event in `trace` and answers reads from a scripted
  queue `responses` (the bytes the device returns). `Driver.Mpl3115a2` is the
  driver class. Its methods `Read8`, `Write8`, `Begin`, `GetPressure`,
  `GetAltitude` and `GetTemperature` have the same control flow as the
  source: the identity check with early exit, the status loop that starts
  from `sta = 0` and pauses after every status read, and the burst read
  assembled by in-place shift-and-OR. Each method is proved to leave exactly
  the trace described by a function in `Protocol`, to consume exactly the
  bytes it reads, and to return the conversion of those bytes. The lemmas in
  `Protocol` then state what each trace means: the bytes the driver sends,
  the read requests it makes, their order and their sizes.
- **The conversions.** `Conversion` models the arithmetic bit for bit, one
  function per step of the source:
  - `Assemble24` and `Assemble16`: the shift-and-OR into the `uint32_t` or
    `int32_t` accumulator (lines 96-100 and 130-134) and into the `uint16_t`
    (lines 168-170);
  - `PressureFromRaw`: `pressure >>= 4` and the division by 4 (lines 101-104);
  - `AltitudeFromRaw`, with `ShiftRight4Signed` and `Int32`: the arithmetic
    shift of the `int32_t`, the sign test `alt & 0x800000`, the OR with
    `0xFF000000` and the division by 16 (lines 135-142);
  - `TemperatureFromRaw`: `t >>= 4` on the `uint16_t` and the division by 16
    (lines 171-174).

  Results are exact reals instead of `float`.

  The lemmas relate the driver's results to the device's fixed-point
  formats, which are defined on the positional value of the bytes:
  - pressure: 20-bit unsigned, two fractional bits;
  - altitude: 20-bit signed, four fractional bits;
  - temperature: 12-bit signed, four fractional bits.

The register addresses and bit masks are macros of `Adafruit_MPL3115A2.h`,
which is not part of this model. `Registers` declares them as constants
without values, so every property holds whatever their values are. Only the
literals that appear in the driver itself have values:
- `0xC4`, the expected identity;
- `10`, the pause;
- `0x800000` and `0xFF000000`, the altitude sign test;
- the burst sizes 1, 2 and 3.

The device reports altitude as a 20-bit two's-complement sample, so after
`alt >>= 4` its sign is bit 19 of the shifted value. The code tests bit 23
(`0x800000`, line 137), and that bit is never set after the shift (see
Findings).

The doc comment of `getPressure` (line 71) says the result is in kPa. The
code divides the 20-bit sample by 4, so with its two fractional bits the
result is in pascals. Units are not modelled.

## Model

| member | source | states |
|---|---|---|
| Wire.Bus.Begin | Adafruit_MPL3115A2.cpp:52 | `wire->begin()` records one bus-start event and consumes nothing |
| Wire.Bus.BeginTransmission | Adafruit_MPL3115A2.cpp:184 | starting a transmission to an address records that event and consumes nothing |
| Wire.Bus.Write | Adafruit_MPL3115A2.cpp:185 | queuing a byte for the device records that byte and consumes nothing |
| Wire.Bus.EndTransmission | Adafruit_MPL3115A2.cpp:189 | ending a transmission records whether a stop was sent and consumes nothing |
| Wire.Bus.RequestFrom | Adafruit_MPL3115A2.cpp:192 | a read request records its address and byte count and consumes nothing |
| Wire.Bus.Read | Adafruit_MPL3115A2.cpp:193 | `wire->read()` returns the next scripted byte and removes it from the queue |
| Wire.Bus.Delay | Adafruit_MPL3115A2.cpp:85 | `delay(10)` is recorded as an event on the same trace, in order with the bus traffic |
| Driver.Mpl3115a2.constructor | Adafruit_MPL3115A2.cpp:42-44 | the driver keeps the bus it is given |
| Driver.Mpl3115a2.Read8 | Adafruit_MPL3115A2.cpp:183-194 | `read8` returns the first scripted byte, consumes exactly that byte, and appends exactly begin(address), write(reg), end(no stop), request(address, 1), read |
| Driver.Mpl3115a2.Write8 | Adafruit_MPL3115A2.cpp:196-205 | `write8` consumes nothing and appends exactly begin(address), write(reg), write(data), end(no stop) |
| Driver.Mpl3115a2.Begin | Adafruit_MPL3115A2.cpp:51-67 | `begin` returns true exactly when the identity byte is 0xC4. It consumes only that byte. Its trace is the bus start and the identity read, followed by the two configuration writes only on success |
| Driver.Mpl3115a2.WaitReady | Adafruit_MPL3115A2.cpp:82-86 | the status loop makes exactly one more status read than the position of the first scripted status with a bit of the mask set. It consumes exactly those reads, and its trace is that many rounds of status read and 10 ms pause |
| Driver.Mpl3115a2.ReadSample24 | Adafruit_MPL3115A2.cpp:87-100 | the burst read returns the three next bytes assembled most significant first. It consumes exactly three bytes, with the trace of a 3-byte burst from `reg` |
| Driver.Mpl3115a2.ReadSample16 | Adafruit_MPL3115A2.cpp:159-170 | the same for a 2-byte burst into a 16-bit accumulator |
| Driver.Mpl3115a2.GetPressure | Adafruit_MPL3115A2.cpp:74-106 | `getPressure` returns the pressure conversion of the three bytes after the first status with PDR set. It consumes up to and including them, and its trace is the barometer-mode write, the polls and the 3-byte burst from OUT_P_MSB |
| Driver.Mpl3115a2.GetAltitude | Adafruit_MPL3115A2.cpp:108-144 | `getAltitude`: the same with the altimeter-mode write and the altitude conversion |
| Driver.Mpl3115a2.GetTemperature | Adafruit_MPL3115A2.cpp:151-176 | `getTemperature` returns the temperature conversion of the two bytes after the first status with TDR set. It makes no control write and does a 2-byte burst from OUT_T_MSB |
| Protocol.FirstReady | Adafruit_MPL3115A2.cpp:83 | the loop's stopping point: the position of the first status byte with a mask bit set, with every earlier byte not ready. `None` means no byte is ready |
| Protocol.FirstReadyAt | Adafruit_MPL3115A2.cpp:83 | up to the stopping point, a status byte passes the loop test exactly when it is the stopping point |
| Protocol.Read8Observed | Adafruit_MPL3115A2.cpp:183-194 | `read8` sends only the register address and makes one request, for one byte |
| Protocol.Write8Observed | Adafruit_MPL3115A2.cpp:196-205 | `write8` sends the register then the data and makes no request |
| Protocol.BurstTraces | Adafruit_MPL3115A2.cpp:87-100 | a burst of 2 or 3 is one addressed transmission, one request and then exactly 2 or 3 reads |
| Protocol.BurstObserved | Adafruit_MPL3115A2.cpp:87-95 | a burst sends only its start register and asks for all its bytes in one request |
| Protocol.PollObserved | Adafruit_MPL3115A2.cpp:82-86 | `n` loop rounds send the status register `n` times and request one byte per round |
| Protocol.PollPausesAfterEachRead | Adafruit_MPL3115A2.cpp:83-86 | every status read in the loop, including the last, is immediately followed by a 10 ms pause, and nothing else is in the loop trace |
| Protocol.BeginSucceedsObserved | Adafruit_MPL3115A2.cpp:51-66 | on identity 0xC4 `begin` starts the bus first. It sends WHO_AM_I, then CTRL_REG1 with SBYB, OS128 and ALT, then PT_DATA_CFG with TDEFE, PDEFE and DREM, in that order, and makes one 1-byte request |
| Protocol.StartObserved | Adafruit_MPL3115A2.cpp:52-53 | starting the bus and reading the identity sends WHO_AM_I and requests one byte |
| Protocol.ConfigureObserved | Adafruit_MPL3115A2.cpp:58-65 | the two configuration writes send their registers and values in order and request nothing |
| Protocol.BeginFailsObserved | Adafruit_MPL3115A2.cpp:51-56 | on any other identity `begin` starts the bus first and sends only WHO_AM_I. It makes no write after the identity read: the trace ends with that read |
| Protocol.MeasurementObserved | Adafruit_MPL3115A2.cpp:77-100 | a control write, then polls, then a burst: it sends the control register and word, the status register once per poll, then the start register. It requests one byte per poll, then the whole burst |
| Protocol.PressureObserved | Adafruit_MPL3115A2.cpp:74-100 | `getPressure` arms barometer mode before polling, requests nothing before the first poll, and asks for 3 bytes from OUT_P_MSB only after the last poll; `polls + 3` bytes in all |
| Protocol.AltitudeObserved | Adafruit_MPL3115A2.cpp:108-134 | `getAltitude`: the same with altimeter mode |
| Protocol.TemperatureObserved | Adafruit_MPL3115A2.cpp:151-170 | `getTemperature` writes no control register. It polls, then asks for 2 bytes from OUT_T_MSB; `polls + 2` bytes in all |
| Conversion.SplitThenAssemble | Adafruit_MPL3115A2.cpp:96-100 | shift-and-OR assembly rebuilds any 24-bit value from its three bytes |
| Conversion.AssembleThenSplit | Adafruit_MPL3115A2.cpp:96-100 | the assembled value fits in 24 bits, and its bytes are the bytes read, in order |
| Conversion.AssembleIsPositional24 | Adafruit_MPL3115A2.cpp:96-100 | the assembled value is `b0*65536 + b1*256 + b2` |
| Conversion.ShiftedSample24 | Adafruit_MPL3115A2.cpp:96-101 | after `>>= 4` the value is the positional value divided by 16, so it is below 2^20 |
| Conversion.AssembleIsPositional16 | Adafruit_MPL3115A2.cpp:168-171 | the 16-bit assembly is `b0*256 + b1`, and after `>>= 4` it is that value divided by 16 |
| Conversion.SignExtend | Adafruit_MPL3115A2.cpp:137-138 | the two's-complement value of a field is in the signed range. It is negative exactly when the top bit is set, and differs from the field by 2^width when negative |
| Conversion.PressureOfBytes | Adafruit_MPL3115A2.cpp:96-104 | the driver's pressure equals the device's 20-bit unsigned sample with two fractional bits |
| Conversion.PressureRange | Adafruit_MPL3115A2.cpp:101-104 | pressure is never negative and is below 2^18 |
| Conversion.PressureMonotone | Adafruit_MPL3115A2.cpp:101-104 | a larger raw sample never gives a smaller pressure |
| Conversion.AltitudeSignTestNeverFires | Adafruit_MPL3115A2.cpp:135-139 | after the arithmetic shift of any 3-byte sample, bit 23 is clear, so `alt \|= 0xFF000000` is unreachable |
| Conversion.AltitudeOfRegister | Adafruit_MPL3115A2.cpp:135-142 | on any 24-bit register value the driver's altitude is the shifted value over 16 |
| Conversion.AltitudeOfBytes | Adafruit_MPL3115A2.cpp:130-142 | the driver's altitude is the sample read unsigned, over 16 |
| Conversion.AltitudeAsWrittenRange | Adafruit_MPL3115A2.cpp:130-142 | the driver's altitude is never negative and is below 65536 |
| Conversion.TemperatureOfBytes | Adafruit_MPL3115A2.cpp:168-174 | the driver's temperature is the 12-bit sample read unsigned, over 16 |
| Conversion.TemperatureAsWrittenRange | Adafruit_MPL3115A2.cpp:168-174 | the driver's temperature is never negative and is below 256 |
| Conversion.AltitudeRange | Adafruit_MPL3115A2.cpp:135-142 | the signed altitude lies in [-32768, 32768) and is negative exactly when the top bit of the first byte is set |
| Conversion.AltitudeBoundaries | Adafruit_MPL3115A2.cpp:135-142 | sample 0x80000 is -32768 m and sample 0x7FFFF is 32767.9375 m |
| Conversion.TemperatureRange | Adafruit_MPL3115A2.cpp:168-174 | the signed temperature lies in [-128, 128) and is negative exactly when the top bit of the first byte is set |
| Conversion.TemperatureBoundaries | Adafruit_MPL3115A2.cpp:168-174 | sample 0x800 is -128 degC and sample 0x7FF is 127.9375 degC |
| Conversion.AltitudeMisreadByWrap | Adafruit_MPL3115A2.cpp:135-142 | the driver's altitude equals the signed altitude plus 65536 exactly when the first byte's top bit is set, and equals it otherwise |
| Conversion.TemperatureMisreadByWrap | Adafruit_MPL3115A2.cpp:152-174 | the driver's temperature equals the signed temperature plus 256 exactly when the first byte's top bit is set, and equals it otherwise |
| Conversion.NegativeAltitudeMisread | Adafruit_MPL3115A2.cpp:130-142 | bytes FF FF F0 encode -0.0625 m and the driver returns 65535.9375 |
| Conversion.NegativeTemperatureMisread | Adafruit_MPL3115A2.cpp:168-174 | bytes FF F0 encode -0.0625 degC and the driver returns 255.9375 |

## Left out

- The `__AVR_ATtiny85__` branches, which call `endTransmission()` with a stop: only the `endTransmission(false)` branch is modelled.
- `float` rounding: results are exact reals, so the model states what the driver computes before rounding to single precision.
- Units: the doc comment of `getPressure` says kPa, but nothing in the code converts units, and the model does not either.
- The internals of the bus library: arbitration, repeated-start electrics, the status code returned by `endTransmission` (which the driver ignores), and `read()` returning -1 on an empty buffer. The bus answers from a finite script, so every method that reads requires the script to hold enough bytes.
- The meaning of `delay(10)` as time: it is recorded only as an event in the trace.
- Liveness of the status loop: the source polls forever if no status is ready. `WaitReady`, `GetPressure`, `GetAltitude` and `GetTemperature` require a ready status byte in the script, so the model says nothing about the non-terminating case.
- Driver.Mpl3115a2.GetPressure, Driver.Mpl3115a2.GetAltitude, Driver.Mpl3115a2.GetTemperature: the contracts give the result as the as-written conversion of the burst bytes. What that value means (the positional sample, the range, the wrap for negative readings) is proved by the `Conversion` lemmas on the same bytes, not repeated in the method contracts.
- The numeric values of the register and bit-mask macros, which live in `Adafruit_MPL3115A2.h`, not part of this model.
- Several buses or several driver objects: the model has one driver on one bus object.
- Counting reads and pauses in a whole measurement trace. `PollPausesAfterEachRead` gives the structure of the loop trace, and `BurstTraces` the number of reads in a burst. No separate count over the whole trace is stated.

## Findings

| source | as written | input that shows it | evidently intended | confidence | as-written member | corrected member |
|---|---|---|---|---|---|---|
| Adafruit_MPL3115A2.cpp:135-139 | the sign test `alt & 0x800000` runs after `alt >>= 4`, when the 24-bit sample has only 20 bits left, so it never fires and negative altitudes are never sign-extended | bytes FF FF F0 (altitude -0.0625 m): the driver returns 65535.9375 | test bit 19 of the shifted sample and extend it, so the altitude is the 20-bit two's-complement value over 16, in [-32768, 32768) | not executed | Conversion.AltitudeMisreadByWrap, Conversion.NegativeAltitudeMisread (with Conversion.AltitudeSignTestNeverFires) | Conversion.AltitudeMeters, proved in Conversion.AltitudeRange and Conversion.AltitudeBoundaries |
| Adafruit_MPL3115A2.cpp:152, 168-174 | the temperature is assembled in a `uint16_t` and shifted and scaled with no sign extension, so negative temperatures read 256 degC too high | bytes FF F0 (temperature -0.0625 degC): the driver returns 255.9375 | the 12-bit two's-complement value over 16, in [-128, 128) | not executed | Conversion.TemperatureMisreadByWrap, Conversion.NegativeTemperatureMisread | Conversion.TemperatureCelsius, proved in Conversion.TemperatureRange and Conversion.TemperatureBoundaries |

The driver methods keep the conversions as written, because they model the
code. The corrected definitions are the reference readings the lemmas compare
them against.
