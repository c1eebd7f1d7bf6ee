/**
 * The VCM-DAS-1 driver: the done-bit test, the conversion handshake and the
 * start-up sequence (reservation, reset, sweep of the 16 analog channels),
 * run against the simulated board of module PortIo.
 *
 * Each method is specified by a function of the board's state before the
 * call: what it returns and which events it appends to the trace.  The
 * properties the driver promises are proved about those functions in module
 * Vcmdas1Properties.
 */
module Vcmdas1 {
  import opened Registers
  import opened PortIo

  /** What one call of the conversion handshake does: its return code, the
      sample left in `*value`, the number of status reads it made and its events. */
  datatype Conversion = Conversion(status: u8, value: s16, polls: nat, events: seq<Event>)

  /** One diagnostic line of the start-up sweep: channel number, return code, sample. */
  datatype Report = Report(channel: nat, status: u8, value: s16)

  /** The state reached after sweeping a prefix of the channels. */
  datatype Sweep = Sweep(statusReads: nat, conversions: nat, events: seq<Event>, reports: seq<Report>)

  /** What the start-up routine does: return code, sweep reports, events. */
  datatype Startup = Startup(rc: int, reports: seq<Report>, events: seq<Event>)

  // ---------------------------------------------------------------------
  // Specification functions
  // ---------------------------------------------------------------------

  /** Index of the status read at which the busy-poll loop stops, when the
      loop entered at read `first` is at read `k`: the first read showing the
      done bit, or read `first + MaxPolls` once the counter has reached its bound. */
  function LastPoll(s: nat -> u8, first: nat, k: nat): (last: nat)
    requires first <= k <= first + MaxPolls
    ensures k <= last <= first + MaxPolls
    decreases first + MaxPolls - k
  {
    if Done(s(k)) || k == first + MaxPolls then k else LastPoll(s, first, k + 1)
  }

  /** No status read numbered `start` up to `stop` shows the done bit. */
  ghost predicate Busy(s: nat -> u8, start: nat, stop: nat)
  {
    forall j :: start <= j < stop ==> !Done(s(j))
  }

  lemma {:induction false} LastPollIs(s: nat -> u8, first: nat, k: nat, i: nat)
    requires first <= k <= i <= first + MaxPolls
    requires Busy(s, k, i)
    requires Done(s(i)) || i == first + MaxPolls
    ensures LastPoll(s, first, k) == i
    decreases i - k
  {
    if k < i {
      LastPollIs(s, first, k + 1, i);
    }
  }

  /** The status-register reads numbered `start` up to `stop`, as events. */
  function StatusReads(base: u32, s: nat -> u8, start: nat, stop: nat): (e: seq<Event>)
    requires start <= stop
  {
    seq(stop - start, i requires 0 <= i < stop - start => Read(Port(base, AdcStat), s(start + i)))
  }

  /** The reads that fetch the sample once the done bit has been seen: ADCHI
      for the debug print, then the two operands of the `|` in the order the
      compiler chose. */
  function SampleReads(base: u32, latch: Latch, loFirst: bool): seq<Event>
  {
    var lo, hi := Read(Port(base, AdcLo), latch.lo), Read(Port(base, AdcHi), latch.hi);
    if loFirst then [hi, lo, hi] else [hi, hi, lo]
  }

  /** The two writes that start a conversion, then the status reads numbered `k0` up to `stop`. */
  function Handshake(base: u32, channel: u8, s: nat -> u8, k0: nat, stop: nat): seq<Event>
    requires k0 <= stop
  {
    [Write(Port(base, Select), channel), Write(Port(base, Convert), 1)] + StatusReads(base, s, k0, stop)
  }

  /** The handshake on channel `channel`, entered with the status script at read
      `k0`, the result registers about to latch `latch`, and `*value` holding `value`. */
  function AnalogReadSpec(base: u32, channel: u8, s: nat -> u8, k0: nat, latch: Latch, value: s16,
                          loFirst: bool): Conversion
  {
    var last := LastPoll(s, k0, k0);
    var handshake := Handshake(base, channel, s, k0, last + 2);
    if Done(s(last + 1)) then
      Conversion(0, Assemble(latch.lo, latch.hi), last + 2 - k0,
                 handshake + SampleReads(base, latch, loFirst))
    else
      Conversion(1, value, last + 2 - k0, handshake)
  }

  /** The sweep over channels 0 .. n-1, each converted with `value` starting at 0. */
  function SweepSpec(base: u32, s: nat -> u8, latched: nat -> Latch, k0: nat, c0: nat, loFirst: bool,
                     n: nat): Sweep
    requires n <= 16
  {
    if n == 0 then Sweep(k0, c0, [], [])
    else
      var prev := SweepSpec(base, s, latched, k0, c0, loFirst, n - 1);
      var c := AnalogReadSpec(base, (n - 1) as u8, s, prev.statusReads, latched(prev.conversions + 1), 0, loFirst);
      Sweep(prev.statusReads + c.polls, prev.conversions + 1, prev.events + c.events,
            prev.reports + [Report(n - 1, c.status, c.value)])
  }

  /** The start-up routine: reserve the window, reset, sweep all 16 channels. */
  function InitSpec(base: u32, granted: bool, s: nat -> u8, latched: nat -> Latch, k0: nat, c0: nat,
                    loFirst: bool): Startup
  {
    if !granted then
      Startup(-EAddrInUse, [], [Request(base, PortRange)])
    else
      var sweep := SweepSpec(base, s, latched, k0, c0, loFirst, 16);
      Startup(0, sweep.reports, [Request(base, PortRange), Write(Port(base, Control), 0)] + sweep.events)
  }

  // ---------------------------------------------------------------------
  // The driver
  // ---------------------------------------------------------------------

  /** `vcmdas1_conversion_done`: read the status register and mask the done bit. */
  method ConversionDone(board: Board) returns (done: u8)
    modifies board
    ensures done == DoneMask(board.status(old(board.statusReads)))
    ensures board.statusReads == old(board.statusReads) + 1
    ensures board.conversions == old(board.conversions)
    ensures board.trace == old(board.trace) + [Read(Port(board.base, AdcStat), board.status(old(board.statusReads)))]
  {
    var status := board.ReadPort(Port(board.base, AdcStat));
    done := DoneMask(status);
  }

  /** The busy-poll `for` loop of `vcmdas1_analog_read`: read the status until
      the done bit shows or the `u16` counter has reached `MaxPolls`. */
  method BusyPoll(board: Board) returns (count: u16)
    modifies board
    ensures count <= MaxPolls
    ensures Busy(board.status, old(board.statusReads), old(board.statusReads) + count)
    ensures Done(board.status(old(board.statusReads) + count)) || count == MaxPolls
    ensures board.statusReads == old(board.statusReads) + count + 1
    ensures board.conversions == old(board.conversions)
    ensures board.trace == old(board.trace)
                           + StatusReads(board.base, board.status, old(board.statusReads), board.statusReads)
  {
    ghost var k0, s, t0 := board.statusReads, board.status, board.trace;
    count := 0;
    var done := ConversionDone(board);
    StatusReadsSnoc(board.base, s, k0, k0);
    while done == 0 && count < MaxPolls
      invariant count <= MaxPolls
      invariant board.statusReads == k0 + count + 1
      invariant board.conversions == old(board.conversions)
      invariant done == DoneMask(s(k0 + count))
      invariant Busy(s, k0, k0 + count)
      invariant board.trace == t0 + StatusReads(board.base, s, k0, k0 + count + 1)
      decreases MaxPolls - count
    {
      count := count + 1;
      done := ConversionDone(board);
      StatusTraceStep(t0, board.base, s, k0, k0 + count);
    }
  }

  /** Lines 66-68 of `vcmdas1_analog_read`, once the done bit has been seen: the
      high byte read by the debug print, then the two reads of the `|`, in the
      order `loFirst` says. */
  method ReadSample(board: Board, loFirst: bool) returns (sample: s16)
    modifies board
    ensures var latch := board.latched(board.conversions);
            && sample == Assemble(latch.lo, latch.hi)
            && board.trace == old(board.trace) + SampleReads(board.base, latch, loFirst)
    ensures board.statusReads == old(board.statusReads) && board.conversions == old(board.conversions)
  {
    PortsDistinct(board.base);
    var _ := board.ReadPort(Port(board.base, AdcHi));
    var lo, hi;
    if loFirst {
      lo := board.ReadPort(Port(board.base, AdcLo));
      hi := board.ReadPort(Port(board.base, AdcHi));
    } else {
      hi := board.ReadPort(Port(board.base, AdcHi));
      lo := board.ReadPort(Port(board.base, AdcLo));
    }
    sample := Assemble(lo, hi);
  }

  /** Lines 60-65 of `vcmdas1_analog_read`: select the channel, start the
      conversion, busy-poll, then read the status once more for the `if`. */
  method StartAndWait(board: Board, channel: u8) returns (count: u16, done: u8)
    modifies board
    ensures count <= MaxPolls
    ensures Busy(board.status, old(board.statusReads), old(board.statusReads) + count)
    ensures Done(board.status(old(board.statusReads) + count)) || count == MaxPolls
    ensures done == DoneMask(board.status(old(board.statusReads) + count + 1))
    ensures board.statusReads == old(board.statusReads) + count + 2
    ensures board.conversions == old(board.conversions) + 1
    ensures board.trace == old(board.trace)
                           + Handshake(board.base, channel, board.status, old(board.statusReads), board.statusReads)
  {
    ghost var k0, s, t0 := board.statusReads, board.status, board.trace;
    PortsDistinct(board.base);
    board.WritePort(channel, Port(board.base, Select));
    board.WritePort(1, Port(board.base, Convert));
    count := BusyPoll(board);
    done := ConversionDone(board);
    HandshakeTrace(t0, board.base, channel, s, k0, k0 + count + 1);
  }

  /** `vcmdas1_analog_read`: the conversion handshake.  `value` is what `*value`
      holds on entry and `result` what it holds on return; `loFirst` is the
      order in which the compiled code evaluates the two operands of the `|`. */
  method AnalogRead(board: Board, channel: u8, value: s16, loFirst: bool) returns (status: u8, result: s16)
    modifies board
    ensures var c := AnalogReadSpec(board.base, channel, board.status, old(board.statusReads),
                                    board.latched(old(board.conversions) + 1), value, loFirst);
            && status == c.status && result == c.value
            && board.trace == old(board.trace) + c.events
            && board.statusReads == old(board.statusReads) + c.polls
            && board.conversions == old(board.conversions) + 1
  {
    ghost var k0, t0 := board.statusReads, board.trace;
    var count, done := StartAndWait(board, channel);
    ghost var latch := board.latched(board.conversions);
    ghost var handshake := Handshake(board.base, channel, board.status, k0, k0 + count + 2);
    AnalogReadSpecAt(board.base, channel, board.status, k0, latch, value, loFirst, count, done);
    if done != 0 {
      result := ReadSample(board, loFirst);
      status := 0;
      AppendAssoc(t0, handshake, SampleReads(board.base, latch, loFirst));
    } else {
      status, result := 1, value;
    }
  }

  /** `vcmdas1_init`: reserve the port window, reset the board and sweep the
      16 channels.  `granted` is the host's answer to the reservation. */
  method Init(board: Board, granted: bool, loFirst: bool) returns (rc: int, reports: seq<Report>)
    modifies board
    ensures var st := InitSpec(board.base, granted, board.status, board.latched,
                               old(board.statusReads), old(board.conversions), loFirst);
            rc == st.rc && reports == st.reports && board.trace == old(board.trace) + st.events
    ensures var sw := SweepSpec(board.base, board.status, board.latched,
                                old(board.statusReads), old(board.conversions), loFirst, 16);
            && board.statusReads == (if granted then sw.statusReads else old(board.statusReads))
            && board.conversions == (if granted then sw.conversions else old(board.conversions))
  {
    ghost var k0, c0, t0 := board.statusReads, board.conversions, board.trace;
    InitSpecCases(board.base, granted, board.status, board.latched, k0, c0, loFirst);
    var ok := board.RequestRegion(board.base, PortRange, granted);
    if !ok {
      return -EAddrInUse, [];
    }
    board.WritePort(0, Port(board.base, Control));
    PortsDistinct(board.base);
    reports := SweepChannels(board, loFirst);
    AppendAssoc(t0, [Request(board.base, PortRange), Write(Port(board.base, Control), 0)],
                SweepSpec(board.base, board.status, board.latched, k0, c0, loFirst, 16).events);
    rc := 0;
  }

  /** The `for` loop of `vcmdas1_init`: one conversion per channel, 0 to 15,
      each with `value` reset to 0, reporting return code and sample. */
  method SweepChannels(board: Board, loFirst: bool) returns (reports: seq<Report>)
    modifies board
    ensures var sw := SweepSpec(board.base, board.status, board.latched,
                                old(board.statusReads), old(board.conversions), loFirst, 16);
            && board.statusReads == sw.statusReads && board.conversions == sw.conversions
            && board.trace == old(board.trace) + sw.events && reports == sw.reports
  {
    ghost var k0, c0, t1 := board.statusReads, board.conversions, board.trace;
    ghost var sw := Sweep(k0, c0, [], []);
    reports := [];
    var i: nat := 0;
    while i < 16
      invariant i <= 16
      invariant sw == SweepSpec(board.base, board.status, board.latched, k0, c0, loFirst, i)
      invariant board.statusReads == sw.statusReads && board.conversions == sw.conversions
      invariant board.trace == t1 + sw.events && reports == sw.reports
    {
      var channel: u8 := i as u8;
      ghost var c := AnalogReadSpec(board.base, channel, board.status, sw.statusReads,
                                    board.latched(sw.conversions + 1), 0, loFirst);
      SweepStep(board.base, board.status, board.latched, k0, c0, loFirst, i, sw);
      var value: s16 := 0;
      var status;
      status, value := AnalogRead(board, channel, value, loFirst);
      reports := reports + [Report(i, status, value)];
      AppendAssoc(t1, sw.events, c.events);
      sw := Sweep(sw.statusReads + c.polls, sw.conversions + 1, sw.events + c.events, sw.reports + [Report(i, c.status, c.value)]);
      i := i + 1;
    }
  }

  /** `vcmdas1_exit`: give the 16-port window back. */
  method Exit(board: Board)
    modifies board
    ensures board.statusReads == old(board.statusReads) && board.conversions == old(board.conversions)
    ensures board.trace == old(board.trace) + [Release(board.base, PortRange)]
  {
    board.ReleaseRegion(board.base, PortRange);
  }

  // ---------------------------------------------------------------------
  // Helpers
  // ---------------------------------------------------------------------

  lemma PortsDistinct(base: u32)
    ensures Port(base, AdcStat) != Port(base, Select) && Port(base, AdcStat) != Port(base, Convert)
    ensures Port(base, AdcStat) != Port(base, AdcLo) && Port(base, AdcStat) != Port(base, AdcHi)
    ensures Port(base, Select) != Port(base, Convert) && Port(base, AdcLo) != Port(base, AdcHi)
    ensures Port(base, Control) == Port(base, AdcStat)
  {
  }

  /** What the handshake does, once the busy-poll loop has stopped after `count`
      increments and the re-check has read `done`. */
  lemma AnalogReadSpecAt(base: u32, channel: u8, s: nat -> u8, k0: nat, latch: Latch, value: s16,
                         loFirst: bool, count: nat, done: u8)
    requires count <= MaxPolls && Busy(s, k0, k0 + count)
    requires Done(s(k0 + count)) || count == MaxPolls
    requires done == DoneMask(s(k0 + count + 1))
    ensures var c := AnalogReadSpec(base, channel, s, k0, latch, value, loFirst);
            var handshake := Handshake(base, channel, s, k0, k0 + count + 2);
            && c.polls == count + 2
            && c.status == (if done != 0 then 0 else 1)
            && c.value == (if done != 0 then Assemble(latch.lo, latch.hi) else value)
            && c.events == (if done != 0
                            then handshake + SampleReads(base, latch, loFirst)
                            else handshake)
  {
    LastPollIs(s, k0, k0, k0 + count);
  }

  /** The trace the handshake leaves after its two writes and `stop - k0` status reads, then the re-check. */
  lemma HandshakeTrace(t: seq<Event>, base: u32, channel: u8, s: nat -> u8, k0: nat, stop: nat)
    requires k0 <= stop
    ensures ((t + [Write(Port(base, Select), channel)]) + [Write(Port(base, Convert), 1)])
            + StatusReads(base, s, k0, stop) + [Read(Port(base, AdcStat), s(stop))]
            == t + Handshake(base, channel, s, k0, stop + 1)
  {
    var w := [Write(Port(base, Select), channel), Write(Port(base, Convert), 1)];
    assert (t + [Write(Port(base, Select), channel)]) + [Write(Port(base, Convert), 1)] == t + w;
    StatusReadsSnoc(base, s, k0, stop);
    AppendAssoc(t, w, StatusReads(base, s, k0, stop));
    AppendAssoc(t + w, StatusReads(base, s, k0, stop), [Read(Port(base, AdcStat), s(stop))]);
    AppendAssoc(w, StatusReads(base, s, k0, stop), [Read(Port(base, AdcStat), s(stop))]);
  }

  lemma StatusReadsSnoc(base: u32, s: nat -> u8, start: nat, stop: nat)
    requires start <= stop
    ensures StatusReads(base, s, start, stop + 1) == StatusReads(base, s, start, stop) + [Read(Port(base, AdcStat), s(stop))]
  {
    var a, b := StatusReads(base, s, start, stop + 1), StatusReads(base, s, start, stop) + [Read(Port(base, AdcStat), s(stop))];
    assert |a| == |b|;
    forall i | 0 <= i < |a| ensures a[i] == b[i] {
    }
  }

  lemma StatusTraceStep(t: seq<Event>, base: u32, s: nat -> u8, start: nat, stop: nat)
    requires start <= stop
    ensures (t + StatusReads(base, s, start, stop)) + [Read(Port(base, AdcStat), s(stop))]
            == t + StatusReads(base, s, start, stop + 1)
  {
    StatusReadsSnoc(base, s, start, stop);
    AppendAssoc(t, StatusReads(base, s, start, stop), [Read(Port(base, AdcStat), s(stop))]);
  }

  /** The two outcomes of the start-up routine. */
  lemma InitSpecCases(base: u32, granted: bool, s: nat -> u8, latched: nat -> Latch, k0: nat, c0: nat, loFirst: bool)
    ensures var st, sw := InitSpec(base, granted, s, latched, k0, c0, loFirst), SweepSpec(base, s, latched, k0, c0, loFirst, 16);
            && (!granted ==> st == Startup(-EAddrInUse, [], [Request(base, PortRange)]))
            && (granted ==> st == Startup(0, sw.reports, [Request(base, PortRange), Write(Port(base, Control), 0)] + sw.events))
  {
  }

  /** One more channel of the sweep. */
  lemma SweepStep(base: u32, s: nat -> u8, latched: nat -> Latch, k0: nat, c0: nat, loFirst: bool, i: nat,
                  prev: Sweep)
    requires i < 16
    requires prev == SweepSpec(base, s, latched, k0, c0, loFirst, i)
    ensures var c := AnalogReadSpec(base, i as u8, s, prev.statusReads, latched(prev.conversions + 1), 0, loFirst);
            SweepSpec(base, s, latched, k0, c0, loFirst, i + 1)
            == Sweep(prev.statusReads + c.polls, prev.conversions + 1, prev.events + c.events,
                     prev.reports + [Report(i, c.status, c.value)])
  {
  }

  lemma AppendAssoc<T>(a: seq<T>, b: seq<T>, c: seq<T>)
    ensures (a + b) + c == a + (b + c)
  {
  }
}
