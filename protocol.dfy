/**
 * The bus traffic of each driver operation, as a function of what the device
 * answers, and two observations of a trace: the bytes the driver sends and
 * the read requests it issues. The driver's methods are proved to produce
 * exactly these traces; the lemmas here state what the traces mean.
 */
module Protocol {

  import opened Wire
  import opened Registers

  datatype Option<T> = None | Some(value: T)

  /** A status byte reports the data selected by `mask` as ready. */
  predicate Ready(status: Byte, mask: Byte)
  {
    status & mask != 0
  }

  /** The position of the first byte of `script` that reports ready, if any. */
  function FirstReady(script: seq<Byte>, mask: Byte): (r: Option<nat>)
    ensures r.Some? ==> r.value < |script| && Ready(script[r.value], mask)
    ensures r.Some? ==> forall i :: 0 <= i < r.value ==> !Ready(script[i], mask)
    ensures r.None? ==> forall i :: 0 <= i < |script| ==> !Ready(script[i], mask)
  {
    if script == [] then None
    else if Ready(script[0], mask) then Some(0)
    else match FirstReady(script[1..], mask)
      case None => None
      case Some(k) => Some(k + 1)
  }

  /** Up to the first ready byte, a byte reports ready exactly when it is that one. */
  lemma FirstReadyAt(script: seq<Byte>, mask: Byte, i: nat)
    requires FirstReady(script, mask).Some? && i <= FirstReady(script, mask).value
    ensures i < |script|
    ensures script[i] & mask != 0 <==> i == FirstReady(script, mask).value
  {
    if i < FirstReady(script, mask).value {
      assert !Ready(script[i], mask);
    }
  }

  /** `n` copies of `x`. */
  function Repeat<T>(x: T, n: nat): (r: seq<T>)
    ensures |r| == n
    ensures forall i :: 0 <= i < n ==> r[i] == x
  {
    if n == 0 then [] else Repeat(x, n - 1) + [x]
  }

  // ---------------------------------------------------------------------------
  // The traffic of each operation.
  // ---------------------------------------------------------------------------

  /** `read8(reg)`: address the register without a stop, then request and read one byte. */
  function Read8Trace(reg: Byte): seq<Event>
  {
    [BeginTransmission(Address), Write(reg), EndTransmission(false), RequestFrom(Address, 1), Read]
  }

  /** `write8(reg, data)`: one transmission carrying the register and the data byte, ended without a stop. */
  function Write8Trace(reg: Byte, data: Byte): seq<Event>
  {
    [BeginTransmission(Address), Write(reg), Write(data), EndTransmission(false)]
  }

  /** The burst read of `count` sample registers starting at `reg`. */
  function BurstTrace(reg: Byte, count: Byte): seq<Event>
  {
    [BeginTransmission(Address), Write(reg), EndTransmission(false), RequestFrom(Address, count)]
      + Repeat(Read, count as nat)
  }

  /** One round of the status loop: a status read followed by the pause. */
  function PollRound(): seq<Event>
  {
    Read8Trace(Status) + [Delay(PollDelayMs)]
  }

  /** `polls` rounds of the status loop. */
  function PollTrace(polls: nat): seq<Event>
  {
    if polls == 0 then [] else PollTrace(polls - 1) + PollRound()
  }

  /** `begin` when the device answers `whoami` to the identity read. */
  function BeginTrace(whoami: Byte): seq<Event>
  {
    [WireBegin] + Read8Trace(WhoAmI)
      + (if whoami == ExpectedWhoAmI
         then Write8Trace(CtrlReg1, AltimeterMode) + Write8Trace(PtDataCfg, DataEventFlags)
         else [])
  }

  /** `getPressure` when the `polls`-th status read is the first that reports ready. */
  function PressureTrace(polls: nat): seq<Event>
  {
    Write8Trace(CtrlReg1, BarometerMode) + PollTrace(polls) + BurstTrace(PressureMsb, 3)
  }

  /** `getAltitude`: as `getPressure`, but with the altimeter control word. */
  function AltitudeTrace(polls: nat): seq<Event>
  {
    Write8Trace(CtrlReg1, AltimeterMode) + PollTrace(polls) + BurstTrace(PressureMsb, 3)
  }

  /** `getTemperature`: no control write, and a two-byte burst from the temperature register. */
  function TemperatureTrace(polls: nat): seq<Event>
  {
    PollTrace(polls) + BurstTrace(TempMsb, 2)
  }

  /** The two bursts the driver makes, written out. */
  lemma BurstTraces(reg: Byte)
    ensures BurstTrace(reg, 2)
         == [BeginTransmission(Address), Write(reg), EndTransmission(false), RequestFrom(Address, 2), Read, Read]
    ensures BurstTrace(reg, 3)
         == [BeginTransmission(Address), Write(reg), EndTransmission(false), RequestFrom(Address, 3), Read, Read, Read]
  {
    assert Repeat(Read, 2) == [Read, Read];
    assert Repeat(Read, 3) == [Read, Read, Read];
  }

  // ---------------------------------------------------------------------------
  // Observations of a trace.
  // ---------------------------------------------------------------------------

  /** The bytes one event sends. */
  function Sent(e: Event): seq<Byte>
  {
    if e.Write? then [e.data] else []
  }

  /** The read request one event makes, as (address, byte count). */
  function Request(e: Event): seq<(Byte, Byte)>
  {
    if e.RequestFrom? then [(e.address, e.count)] else []
  }

  /** The bytes sent to the device, in order. */
  function Payload(trace: seq<Event>): seq<Byte>
  {
    if trace == [] then [] else Sent(trace[0]) + Payload(trace[1..])
  }

  /** The read requests, in order. */
  function Requests(trace: seq<Event>): seq<(Byte, Byte)>
  {
    if trace == [] then [] else Request(trace[0]) + Requests(trace[1..])
  }

  /** The number of bytes a sequence of requests asks for. */
  function Requested(requests: seq<(Byte, Byte)>): nat
  {
    if requests == [] then 0 else requests[0].1 as nat + Requested(requests[1..])
  }

  /** Both observations of a concatenation are the concatenations of the observations. */
  lemma ObserveAppend(a: seq<Event>, b: seq<Event>)
    ensures Payload(a + b) == Payload(a) + Payload(b)
    ensures Requests(a + b) == Requests(a) + Requests(b)
  {
    PayloadAppend(a, b);
    RequestsAppend(a, b);
  }

  lemma {:induction false} PayloadAppend(a: seq<Event>, b: seq<Event>)
    ensures Payload(a + b) == Payload(a) + Payload(b)
  {
    if a == [] {
      assert a + b == b;
    } else {
      calc {
        Payload(a + b);
        { assert (a + b)[0] == a[0]; assert (a + b)[1..] == a[1..] + b; }
        Sent(a[0]) + Payload(a[1..] + b);
        { PayloadAppend(a[1..], b); }
        Sent(a[0]) + (Payload(a[1..]) + Payload(b));
      }
    }
  }

  lemma {:induction false} RequestsAppend(a: seq<Event>, b: seq<Event>)
    ensures Requests(a + b) == Requests(a) + Requests(b)
  {
    if a == [] {
      assert a + b == b;
    } else {
      calc {
        Requests(a + b);
        { assert (a + b)[0] == a[0]; assert (a + b)[1..] == a[1..] + b; }
        Request(a[0]) + Requests(a[1..] + b);
        { RequestsAppend(a[1..], b); }
        Request(a[0]) + (Requests(a[1..]) + Requests(b));
      }
    }
  }

  lemma {:induction false} RequestedAppend(x: seq<(Byte, Byte)>, y: seq<(Byte, Byte)>)
    ensures Requested(x + y) == Requested(x) + Requested(y)
  {
    if x == [] {
      assert x + y == y;
    } else {
      assert (x + y)[1..] == x[1..] + y;
      RequestedAppend(x[1..], y);
    }
  }

  /** The observations of a trace that starts with `e`. */
  lemma ObserveFirst(e: Event, t: seq<Event>)
    ensures Payload([e] + t) == Sent(e) + Payload(t)
    ensures Requests([e] + t) == Request(e) + Requests(t)
  {
    assert ([e] + t)[0] == e;
    assert ([e] + t)[1..] == t;
  }

  lemma {:induction false} ReadsObserved(n: nat)
    ensures Payload(Repeat(Read, n)) == [] && Requests(Repeat(Read, n)) == []
  {
    if n > 0 {
      ReadsObserved(n - 1);
      ObserveAppend(Repeat(Read, n - 1), [Read]);
      ObserveFirst(Read, []);
    }
  }

  lemma {:induction false} RequestedRepeat(n: nat)
    ensures Requested(Repeat((Address, 1 as Byte), n)) == n
  {
    if n > 0 {
      RequestedRepeat(n - 1);
      RequestedAppend(Repeat((Address, 1 as Byte), n - 1), [(Address, 1 as Byte)]);
    }
  }

  // ---------------------------------------------------------------------------
  // What each operation sends and requests.
  // ---------------------------------------------------------------------------

  /** `read8` sends only the register address and requests one byte. */
  lemma Read8Observed(reg: Byte)
    ensures Payload(Read8Trace(reg)) == [reg]
    ensures Requests(Read8Trace(reg)) == [(Address, 1)]
  {
    var e4 := [Read] + [];
    var e3 := [RequestFrom(Address, 1)] + e4;
    var e2 := [EndTransmission(false)] + e3;
    var e1 := [Write(reg)] + e2;
    assert Read8Trace(reg) == [BeginTransmission(Address)] + e1;
    ObserveFirst(Read, []);
    ObserveFirst(RequestFrom(Address, 1), e4);
    ObserveFirst(EndTransmission(false), e3);
    ObserveFirst(Write(reg), e2);
    ObserveFirst(BeginTransmission(Address), e1);
  }

  /** `write8` sends the register then the data, and requests nothing. */
  lemma Write8Observed(reg: Byte, data: Byte)
    ensures Payload(Write8Trace(reg, data)) == [reg, data]
    ensures Requests(Write8Trace(reg, data)) == []
  {
    var e3 := [EndTransmission(false)] + [];
    var e2 := [Write(data)] + e3;
    var e1 := [Write(reg)] + e2;
    assert Write8Trace(reg, data) == [BeginTransmission(Address)] + e1;
    ObserveFirst(EndTransmission(false), []);
    ObserveFirst(Write(data), e3);
    ObserveFirst(Write(reg), e2);
    ObserveFirst(BeginTransmission(Address), e1);
  }

  /** A burst sends the start register and asks for `count` bytes in one request. */
  lemma BurstObserved(reg: Byte, count: Byte)
    ensures Payload(BurstTrace(reg, count)) == [reg]
    ensures Requests(BurstTrace(reg, count)) == [(Address, count)]
  {
    var e3 := [RequestFrom(Address, count)] + Repeat(Read, count as nat);
    var e2 := [EndTransmission(false)] + e3;
    var e1 := [Write(reg)] + e2;
    assert BurstTrace(reg, count) == [BeginTransmission(Address)] + e1;
    ReadsObserved(count as nat);
    ObserveFirst(RequestFrom(Address, count), Repeat(Read, count as nat));
    ObserveFirst(EndTransmission(false), e3);
    ObserveFirst(Write(reg), e2);
    ObserveFirst(BeginTransmission(Address), e1);
  }

  /**
   * `polls` rounds of the status loop address only the status register and
   * request one byte per round.
   */
  lemma {:induction false} PollObserved(polls: nat)
    ensures Payload(PollTrace(polls)) == Repeat(Status, polls)
    ensures Requests(PollTrace(polls)) == Repeat((Address, 1 as Byte), polls)
  {
    if polls > 0 {
      PollObserved(polls - 1);
      Read8Observed(Status);
      ObserveFirst(Delay(PollDelayMs), []);
      ObserveAppend(Read8Trace(Status), [Delay(PollDelayMs)]);
      ObserveAppend(PollTrace(polls - 1), PollRound());
    }
  }

  /** In the status loop every status read is immediately followed by the pause. */
  lemma {:induction false} PollPausesAfterEachRead(polls: nat)
    ensures |PollTrace(polls)| == 6 * polls
    ensures forall i :: 0 <= i < polls ==>
              PollTrace(polls)[6 * i .. 6 * i + 5] == Read8Trace(Status)
              && PollTrace(polls)[6 * i + 5] == Delay(PollDelayMs)
  {
    if polls > 0 {
      PollPausesAfterEachRead(polls - 1);
      var prev := PollTrace(polls - 1);
      var t := PollTrace(polls);
      assert t == prev + PollRound();
      forall i | 0 <= i < polls
        ensures t[6 * i .. 6 * i + 5] == Read8Trace(Status) && t[6 * i + 5] == Delay(PollDelayMs)
      {
        if i < polls - 1 {
          assert t[6 * i .. 6 * i + 5] == prev[6 * i .. 6 * i + 5];
          assert t[6 * i + 5] == prev[6 * i + 5];
        }
      }
    }
  }

  /**
   * When the identity register holds 0xC4, `begin` starts the bus, reads the
   * identity register, then writes the altimeter control word to CTRL_REG1 and
   * the event flags to PT_DATA_CFG, in that order, and requests nothing more.
   */
  lemma BeginSucceedsObserved()
    ensures BeginTrace(ExpectedWhoAmI)[0] == WireBegin
    ensures Payload(BeginTrace(ExpectedWhoAmI)) == [WhoAmI, CtrlReg1, AltimeterMode, PtDataCfg, DataEventFlags]
    ensures Requests(BeginTrace(ExpectedWhoAmI)) == [(Address, 1)]
  {
    var start := [WireBegin] + Read8Trace(WhoAmI);
    var configure := Write8Trace(CtrlReg1, AltimeterMode) + Write8Trace(PtDataCfg, DataEventFlags);
    assert BeginTrace(ExpectedWhoAmI) == start + configure;
    StartObserved();
    ConfigureObserved();
    ObserveAppend(start, configure);
  }

  /** Starting the bus and reading the identity register. */
  lemma StartObserved()
    ensures Payload([WireBegin] + Read8Trace(WhoAmI)) == [WhoAmI]
    ensures Requests([WireBegin] + Read8Trace(WhoAmI)) == [(Address, 1)]
  {
    Read8Observed(WhoAmI);
    ObserveFirst(WireBegin, Read8Trace(WhoAmI));
  }

  /** The two configuration writes of `begin`. */
  lemma ConfigureObserved()
    ensures Payload(Write8Trace(CtrlReg1, AltimeterMode) + Write8Trace(PtDataCfg, DataEventFlags))
         == [CtrlReg1, AltimeterMode, PtDataCfg, DataEventFlags]
    ensures Requests(Write8Trace(CtrlReg1, AltimeterMode) + Write8Trace(PtDataCfg, DataEventFlags)) == []
  {
    Write8Observed(CtrlReg1, AltimeterMode);
    Write8Observed(PtDataCfg, DataEventFlags);
    ObserveAppend(Write8Trace(CtrlReg1, AltimeterMode), Write8Trace(PtDataCfg, DataEventFlags));
  }

  /**
   * When the identity register holds anything else, `begin` writes nothing:
   * its traffic ends with the one byte of the identity read.
   */
  lemma BeginFailsObserved(whoami: Byte)
    requires whoami != ExpectedWhoAmI
    ensures BeginTrace(whoami)[0] == WireBegin
    ensures Payload(BeginTrace(whoami)) == [WhoAmI]
    ensures Requests(BeginTrace(whoami)) == [(Address, 1)]
    ensures |BeginTrace(whoami)| == 6 && BeginTrace(whoami)[5] == Read
  {
    assert BeginTrace(whoami) == [WireBegin] + Read8Trace(WhoAmI);
    StartObserved();
  }

  /**
   * `getPressure` selects barometer mode, polls the status register `polls`
   * times, then asks for three bytes from OUT_P_MSB; the only multi-byte
   * request is the last one.
   */
  lemma PressureObserved(polls: nat)
    ensures Payload(PressureTrace(polls)) == [CtrlReg1, BarometerMode] + Repeat(Status, polls) + [PressureMsb]
    ensures Requests(PressureTrace(polls)) == Repeat((Address, 1 as Byte), polls) + [(Address, 3)]
    ensures Requested(Requests(PressureTrace(polls))) == polls + 3
  {
    MeasurementObserved(CtrlReg1, BarometerMode, polls, PressureMsb, 3);
  }

  /** `getAltitude`: the same traffic as `getPressure` with the altimeter control word. */
  lemma AltitudeObserved(polls: nat)
    ensures Payload(AltitudeTrace(polls)) == [CtrlReg1, AltimeterMode] + Repeat(Status, polls) + [PressureMsb]
    ensures Requests(AltitudeTrace(polls)) == Repeat((Address, 1 as Byte), polls) + [(Address, 3)]
    ensures Requested(Requests(AltitudeTrace(polls))) == polls + 3
  {
    MeasurementObserved(CtrlReg1, AltimeterMode, polls, PressureMsb, 3);
  }

  /** `getTemperature` writes no control word, polls, then asks for two bytes from OUT_T_MSB. */
  lemma TemperatureObserved(polls: nat)
    ensures Payload(TemperatureTrace(polls)) == Repeat(Status, polls) + [TempMsb]
    ensures Requests(TemperatureTrace(polls)) == Repeat((Address, 1 as Byte), polls) + [(Address, 2)]
    ensures Requested(Requests(TemperatureTrace(polls))) == polls + 2
  {
    PollObserved(polls);
    BurstObserved(TempMsb, 2);
    ObserveAppend(PollTrace(polls), BurstTrace(TempMsb, 2));
    RequestedTail(polls, 2);
  }

  lemma MeasurementObserved(reg: Byte, mode: Byte, polls: nat, sample: Byte, count: Byte)
    ensures var t := Write8Trace(reg, mode) + PollTrace(polls) + BurstTrace(sample, count);
      && Payload(t) == [reg, mode] + Repeat(Status, polls) + [sample]
      && Requests(t) == Repeat((Address, 1 as Byte), polls) + [(Address, count)]
      && Requested(Requests(t)) == polls + count as nat
  {
    Write8Observed(reg, mode);
    PollObserved(polls);
    BurstObserved(sample, count);
    ObserveAppend(Write8Trace(reg, mode), PollTrace(polls));
    ObserveAppend(Write8Trace(reg, mode) + PollTrace(polls), BurstTrace(sample, count));
    RequestedTail(polls, count);
  }

  lemma RequestedTail(polls: nat, count: Byte)
    ensures Requested(Repeat((Address, 1 as Byte), polls) + [(Address, count)]) == polls + count as nat
  {
    RequestedRepeat(polls);
    RequestedAppend(Repeat((Address, 1 as Byte), polls), [(Address, count)]);
    assert Requested([(Address, count)]) == count as nat;
  }
}
