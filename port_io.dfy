/**
 * A simulated VCM-DAS-1 on the port-I/O bus, standing in for the kernel's
 * `inb`/`outb` primitives and its I/O-region manager.
 *
 * The board decodes its registers at `base`.  What it answers is scripted:
 * the n-th read of the status register returns `status(n)`, and after the
 * k-th write to the convert register the result registers hold `latched(k)`.
 * Ports the board does not decode answer with `openBus`.  Every access is
 * appended to `trace`, which is what the driver's properties are stated over.
 */
module PortIo {
  import opened Registers

  /** The two result bytes a conversion latches. */
  datatype Latch = Latch(lo: u8, hi: u8)

  /** One observable action of the driver. */
  datatype Event =
    | Read(port: u32, value: u8)         // inb
    | Write(port: u32, value: u8)        // outb
    | Request(start: u32, count: nat)    // request_region
    | Release(start: u32, count: nat)    // release_region

  class Board {
    const base: u32
    const status: nat -> u8
    const latched: nat -> Latch
    /** What ports the board does not decode answer.  The driver itself only reads
        the status and result registers, so this applies only to other callers. */
    const openBus: u32 -> u8

    /** Number of status-register reads so far. */
    var statusReads: nat
    /** Number of writes to the convert register so far. */
    var conversions: nat
    var trace: seq<Event>

    constructor (base: u32, status: nat -> u8, latched: nat -> Latch, openBus: u32 -> u8)
      ensures this.base == base && this.status == status
      ensures this.latched == latched && this.openBus == openBus
      ensures statusReads == 0 && conversions == 0 && trace == []
    {
      this.base, this.status, this.latched, this.openBus := base, status, latched, openBus;
      statusReads, conversions, trace := 0, 0, [];
    }

    /** `inb(port)`: the status register consumes one scripted byte; the result registers are latched. */
    method ReadPort(port: u32) returns (v: u8)
      modifies this
      ensures v == if port == Port(base, AdcStat) then status(old(statusReads))
                   else if port == Port(base, AdcLo) then latched(conversions).lo
                   else if port == Port(base, AdcHi) then latched(conversions).hi
                   else openBus(port)
      ensures statusReads == old(statusReads) + (if port == Port(base, AdcStat) then 1 else 0)
      ensures conversions == old(conversions)
      ensures trace == old(trace) + [Read(port, v)]
    {
      if port == Port(base, AdcStat) {
        v := status(statusReads);
        statusReads := statusReads + 1;
      } else if port == Port(base, AdcLo) {
        v := latched(conversions).lo;
      } else if port == Port(base, AdcHi) {
        v := latched(conversions).hi;
      } else {
        v := openBus(port);
      }
      trace := trace + [Read(port, v)];
    }

    /** `outb(value, port)`: a write to the convert register starts the next conversion. */
    method WritePort(value: u8, port: u32)
      modifies this
      ensures statusReads == old(statusReads)
      ensures conversions == old(conversions) + (if port == Port(base, Convert) then 1 else 0)
      ensures trace == old(trace) + [Write(port, value)]
    {
      if port == Port(base, Convert) {
        conversions := conversions + 1;
      }
      trace := trace + [Write(port, value)];
    }

    /** `request_region(start, count, ...)`: whether the host grants it is an input. */
    method RequestRegion(start: u32, count: nat, granted: bool) returns (ok: bool)
      modifies this
      ensures ok == granted
      ensures statusReads == old(statusReads) && conversions == old(conversions)
      ensures trace == old(trace) + [Request(start, count)]
    {
      ok := granted;
      trace := trace + [Request(start, count)];
    }

    /** `release_region(start, count)`, recorded as an opaque event. */
    method ReleaseRegion(start: u32, count: nat)
      modifies this
      ensures statusReads == old(statusReads) && conversions == old(conversions)
      ensures trace == old(trace) + [Release(start, count)]
    {
      trace := trace + [Release(start, count)];
    }
  }
}
