/**
 * The two-wire bus as the driver sees it. The real transport (arbitration,
 * clock stretching, electrical signalling, error codes) is outside the model:
 * a `Bus` only records every call the driver makes, in order, and answers
 * `Read` from a scripted queue of bytes the device returns. The host's blocking
 * `delay` is recorded on the same trace so that its position relative to the
 * bus traffic is visible.
 */
module Wire {

  type Byte = bv8

  /** One call made by the driver on the bus (or on the host's delay). */
  datatype Event =
    | WireBegin                                  // wire->begin()
    | BeginTransmission(address: Byte)           // wire->beginTransmission(address)
    | Write(data: Byte)                          // wire->write(data)
    | EndTransmission(sendStop: bool)            // wire->endTransmission(sendStop)
    | RequestFrom(address: Byte, count: Byte)    // wire->requestFrom(address, count)
    | Read                                       // wire->read()
    | Delay(ms: nat)                             // delay(ms)

  class Bus {
    /** Every call made so far, oldest first. */
    var trace: seq<Event>
    /** The bytes the device will still return, in the order `Read` yields them. */
    var responses: seq<Byte>

    constructor (script: seq<Byte>)
      ensures trace == [] && responses == script
    {
      trace := [];
      responses := script;
    }

    method Begin()
      modifies this
      ensures trace == old(trace) + [Event.WireBegin]
      ensures responses == old(responses)
    {
      trace := trace + [Event.WireBegin];
    }

    method BeginTransmission(address: Byte)
      modifies this
      ensures trace == old(trace) + [Event.BeginTransmission(address)]
      ensures responses == old(responses)
    {
      trace := trace + [Event.BeginTransmission(address)];
    }

    method Write(data: Byte)
      modifies this
      ensures trace == old(trace) + [Event.Write(data)]
      ensures responses == old(responses)
    {
      trace := trace + [Event.Write(data)];
    }

    method EndTransmission(sendStop: bool)
      modifies this
      ensures trace == old(trace) + [Event.EndTransmission(sendStop)]
      ensures responses == old(responses)
    {
      trace := trace + [Event.EndTransmission(sendStop)];
    }

    method RequestFrom(address: Byte, count: Byte)
      modifies this
      ensures trace == old(trace) + [Event.RequestFrom(address, count)]
      ensures responses == old(responses)
    {
      trace := trace + [Event.RequestFrom(address, count)];
    }

    /** Yields the next scripted byte; the script must still hold one. */
    method Read() returns (b: Byte)
      requires responses != []
      modifies this
      ensures b == old(responses[0])
      ensures responses == old(responses[1..])
      ensures trace == old(trace) + [Event.Read]
    {
      b := responses[0];
      responses := responses[1..];
      trace := trace + [Event.Read];
    }

    /** The host's blocking delay, recorded only as an event. */
    method Delay(ms: nat)
      modifies this
      ensures trace == old(trace) + [Event.Delay(ms)]
      ensures responses == old(responses)
    {
      trace := trace + [Event.Delay(ms)];
    }
  }
}
