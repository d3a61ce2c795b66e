/**
 * The driver object: it holds the bus it was given and, on each call, drives
 * that bus through the register protocol of the MPL3115A2. Every method is
 * proved to leave exactly the trace the protocol module describes, to consume
 * exactly the bytes it reads, and to return the conversion of those bytes.
 */
module Driver {

  import opened Wire
  import opened Registers
  import opened Conversion
  import opened Protocol

  class Mpl3115a2 {
    /** The bus the driver talks to; set once by the constructor. */
    const wire: Bus

    constructor (w: Bus)
      ensures wire == w
    {
      wire := w;
    }

    /** `read8`: reads one register and returns the byte the device answers. */
    method Read8(reg: Byte) returns (value: Byte)
      requires wire.responses != []
      modifies wire
      ensures value == old(wire.responses[0])
      ensures wire.responses == old(wire.responses[1..])
      ensures wire.trace == old(wire.trace) + Read8Trace(reg)
    {
      wire.BeginTransmission(Address);
      wire.Write(reg);
      wire.EndTransmission(false);
      wire.RequestFrom(Address, 1);
      value := wire.Read();
    }

    /** `write8`: writes one byte to one register. */
    method Write8(reg: Byte, data: Byte)
      modifies wire
      ensures wire.responses == old(wire.responses)
      ensures wire.trace == old(wire.trace) + Write8Trace(reg, data)
    {
      wire.BeginTransmission(Address);
      wire.Write(reg);
      wire.Write(data);
      wire.EndTransmission(false);
    }

    /**
     * `begin`: starts the bus, checks the identity register and, only when it
     * reads 0xC4, configures the device.
     */
    method Begin() returns (ok: bool)
      requires wire.responses != []
      modifies wire
      ensures ok <==> old(wire.responses[0]) == ExpectedWhoAmI
      ensures wire.responses == old(wire.responses[1..])
      ensures wire.trace == old(wire.trace) + BeginTrace(old(wire.responses[0]))
    {
      ghost var t0 := wire.trace;
      wire.Begin();
      var whoami := Read8(WhoAmI);
      ghost var t1 := wire.trace;
      assert t1 == t0 + ([WireBegin] + Read8Trace(WhoAmI));
      if whoami != ExpectedWhoAmI {
        assert BeginTrace(whoami) == [WireBegin] + Read8Trace(WhoAmI);
        return false;
      }
      Write8(CtrlReg1, AltimeterMode);
      Write8(PtDataCfg, DataEventFlags);
      assert wire.trace == t1 + (Write8Trace(CtrlReg1, AltimeterMode) + Write8Trace(PtDataCfg, DataEventFlags));
      return true;
    }

    /**
     * The status loop shared by the three measurements: starting from a status
     * of 0, read the status register and pause until a status has a bit of
     * `mask` set. It returns how many status reads it made; the last one is the
     * first ready byte of the script.
     */
    method WaitReady(mask: Byte) returns (polls: nat)
      requires FirstReady(wire.responses, mask).Some?
      modifies wire
      ensures polls == FirstReady(old(wire.responses), mask).value + 1
      ensures wire.responses == old(wire.responses)[polls..]
      ensures wire.trace == old(wire.trace) + PollTrace(polls)
    {
      ghost var script := wire.responses;
      ghost var ready := FirstReady(script, mask).value;
      var sta: Byte := 0;
      polls := 0;
      while sta & mask == 0
        invariant polls <= ready + 1
        invariant wire.responses == script[polls..]
        invariant wire.trace == old(wire.trace) + PollTrace(polls)
        invariant sta & mask != 0 <==> polls == ready + 1
        decreases ready + 1 - polls
      {
        ghost var before := wire.trace;
        FirstReadyAt(script, mask, polls);
        sta := Read8(Status);
        wire.Delay(PollDelayMs);
        assert wire.trace == before + PollRound();
        polls := polls + 1;
      }
    }

    /**
     * The burst read that ends `getPressure` and `getAltitude`: address OUT_P_MSB
     * (or `reg`) without a stop, request three bytes and shift each into a
     * 32-bit accumulator, most significant first.
     */
    method ReadSample24(reg: Byte) returns (raw: bv32)
      requires |wire.responses| >= 3
      modifies wire
      ensures var s := old(wire.responses); raw == Assemble24(s[0], s[1], s[2])
      ensures wire.responses == old(wire.responses[3..])
      ensures wire.trace == old(wire.trace) + BurstTrace(reg, 3)
    {
      wire.BeginTransmission(Address);
      wire.Write(reg);
      wire.EndTransmission(false);
      wire.RequestFrom(Address, 3);
      var b := wire.Read();
      raw := b as bv32;
      raw := raw << 8;
      b := wire.Read();
      raw := raw | b as bv32;
      raw := raw << 8;
      b := wire.Read();
      raw := raw | b as bv32;
      BurstTraces(reg);
    }

    /** The burst read that ends `getTemperature`: two bytes shifted into a 16-bit accumulator. */
    method ReadSample16(reg: Byte) returns (raw: bv16)
      requires |wire.responses| >= 2
      modifies wire
      ensures var s := old(wire.responses); raw == Assemble16(s[0], s[1])
      ensures wire.responses == old(wire.responses[2..])
      ensures wire.trace == old(wire.trace) + BurstTrace(reg, 2)
    {
      wire.BeginTransmission(Address);
      wire.Write(reg);
      wire.EndTransmission(false);
      wire.RequestFrom(Address, 2);
      var b := wire.Read();
      raw := b as bv16;
      raw := raw << 8;
      b := wire.Read();
      raw := raw | b as bv16;
      BurstTraces(reg);
    }

    /** `getPressure`: barometer mode, wait for pressure data, burst-read three bytes. */
    method GetPressure() returns (baro: real)
      requires FirstReady(wire.responses, StatusPdr).Some?
      requires FirstReady(wire.responses, StatusPdr).value + 4 <= |wire.responses|
      modifies wire
      ensures var s, k := old(wire.responses), FirstReady(old(wire.responses), StatusPdr).value;
              && baro == PressureFromRaw(Assemble24(s[k + 1], s[k + 2], s[k + 3]))
      ensures var s, k := old(wire.responses), FirstReady(old(wire.responses), StatusPdr).value;
              && wire.responses == s[k + 4..]
              && wire.trace == old(wire.trace) + PressureTrace(k + 1)
    {
      ghost var s := wire.responses;
      Write8(CtrlReg1, BarometerMode);
      var polls := WaitReady(StatusPdr);
      ghost var b0, b1, b2 := s[polls], s[polls + 1], s[polls + 2];
      assert wire.responses[0] == b0 && wire.responses[1] == b1 && wire.responses[2] == b2;
      var pressure := ReadSample24(PressureMsb);
      assert pressure == Assemble24(b0, b1, b2);
      baro := PressureFromRaw(pressure);
    }

    /** `getAltitude`: altimeter mode, wait for pressure data, burst-read three bytes. */
    method GetAltitude() returns (altitude: real)
      requires FirstReady(wire.responses, StatusPdr).Some?
      requires FirstReady(wire.responses, StatusPdr).value + 4 <= |wire.responses|
      modifies wire
      ensures var s, k := old(wire.responses), FirstReady(old(wire.responses), StatusPdr).value;
              && altitude == AltitudeFromRaw(Assemble24(s[k + 1], s[k + 2], s[k + 3]))
      ensures var s, k := old(wire.responses), FirstReady(old(wire.responses), StatusPdr).value;
              && wire.responses == s[k + 4..]
              && wire.trace == old(wire.trace) + AltitudeTrace(k + 1)
    {
      ghost var s := wire.responses;
      Write8(CtrlReg1, AltimeterMode);
      var polls := WaitReady(StatusPdr);
      ghost var b0, b1, b2 := s[polls], s[polls + 1], s[polls + 2];
      assert wire.responses[0] == b0 && wire.responses[1] == b1 && wire.responses[2] == b2;
      var alt := ReadSample24(PressureMsb);
      assert alt == Assemble24(b0, b1, b2);
      altitude := AltitudeFromRaw(alt);
    }

    /** `getTemperature`: wait for temperature data, burst-read two bytes. */
    method GetTemperature() returns (temp: real)
      requires FirstReady(wire.responses, StatusTdr).Some?
      requires FirstReady(wire.responses, StatusTdr).value + 3 <= |wire.responses|
      modifies wire
      ensures var s, k := old(wire.responses), FirstReady(old(wire.responses), StatusTdr).value;
              && temp == TemperatureFromRaw(Assemble16(s[k + 1], s[k + 2]))
      ensures var s, k := old(wire.responses), FirstReady(old(wire.responses), StatusTdr).value;
              && wire.responses == s[k + 3..]
              && wire.trace == old(wire.trace) + TemperatureTrace(k + 1)
    {
      ghost var s := wire.responses;
      var polls := WaitReady(StatusTdr);
      ghost var b0, b1 := s[polls], s[polls + 1];
      assert wire.responses[0] == b0 && wire.responses[1] == b1;
      var t := ReadSample16(TempMsb);
      assert t == Assemble16(b0, b1);
      temp := TemperatureFromRaw(t);
    }
  }
}
