/**
 * What the driver promises, proved about the specification functions of
 * module Vcmdas1 (and hence, through the methods' postconditions, about the
 * driver itself): which bit decides completion, how a sample is assembled,
 * where the busy-poll loop stops, what the handshake writes and reads on
 * success and on failure, and what the start-up routine leaves behind.
 */
module Vcmdas1Properties {
  import opened Registers
  import opened PortIo
  import opened Vcmdas1

  // ---------------------------------------------------------------------
  // The done-bit test and the sample
  // ---------------------------------------------------------------------

  /** Only bit 6 matters: toggling any other bits, BUSY included, does not change the test. */
  lemma DoneIgnoresOtherBits(status: u8, m: u8)
    requires m & DoneBit == 0
    ensures DoneMask(status ^ m) == DoneMask(status)
    ensures Done(status ^ m) <==> Done(status)
  {
  }

  /** The BUSY bit in particular is never looked at. */
  lemma BusyBitIgnored(status: u8)
    ensures Done(status | BusyBit) <==> Done(status)
    ensures Done(status & !BusyBit) <==> Done(status)
  {
    DoneIgnoresOtherBits(status, BusyBit);
  }

  /** Samples for some byte pairs, the sign coming from bit 7 of the high byte. */
  lemma AssembleExamples()
    ensures Assemble(0x34, 0x12) == 0x1234
    ensures Assemble(0x00, 0x80) == -0x8000
    ensures Assemble(0xFF, 0xFF) == -1
    ensures Assemble(0x10, 0x00) == 0x10
  {
    SampleOfPattern(0x34, 0x12, 0x1234);
    SampleOfPattern(0x00, 0x80, -0x8000);
    SampleOfPattern(0xFF, 0xFF, -1);
    SampleOfPattern(0x10, 0x00, 0x10);
  }

  /** A sample is determined by its 16-bit pattern. */
  lemma SampleOfPattern(lo: u8, hi: u8, v: s16)
    requires v % 0x1_0000 == lo as int + 0x100 * hi as int
    ensures Assemble(lo, hi) == v
  {
    PatternDeterminesS16(Assemble(lo, hi), v);
  }

  lemma PatternDeterminesS16(a: s16, b: s16)
    requires a % 0x1_0000 == b % 0x1_0000
    ensures a == b
  {
  }

  /** No information is lost: different byte pairs give different samples. */
  lemma AssembleInjective(lo: u8, hi: u8, lo': u8, hi': u8)
    requires Assemble(lo, hi) == Assemble(lo', hi')
    ensures lo == lo' && hi == hi'
  {
    BytesOfPattern(lo, hi, lo', hi');
  }

  lemma BytesOfPattern(lo: u8, hi: u8, lo': u8, hi': u8)
    requires lo as int + 0x100 * hi as int == lo' as int + 0x100 * hi' as int
    ensures lo == lo' && hi == hi'
  {
    ByteBound(lo);
    ByteBound(lo');
    assert hi as int == hi' as int;
    ByteInjective(hi, hi');
    ByteInjective(lo, lo');
  }

  lemma ByteBound(x: u8)
    ensures 0 <= x as int < 0x100
  {
  }

  lemma ByteInjective(x: u8, y: u8)
    requires x as int == y as int
    ensures x == y
  {
  }

  // ---------------------------------------------------------------------
  // The busy-poll loop
  // ---------------------------------------------------------------------

  /** The loop stops at the first status read that shows the done bit, or at
      read `first + MaxPolls` if none of them does; and at no other read. */
  lemma LastPollCharacterized(s: nat -> u8, first: nat, k: nat, i: nat)
    requires first <= k <= first + MaxPolls
    ensures LastPoll(s, first, k) == i <==>
            k <= i <= first + MaxPolls && Busy(s, k, i) && (Done(s(i)) || i == first + MaxPolls)
  {
    LastPollFirstDone(s, first, k);
    if k <= i <= first + MaxPolls && Busy(s, k, i) && (Done(s(i)) || i == first + MaxPolls) {
      LastPollIs(s, first, k, i);
    }
  }

  lemma {:induction false} LastPollFirstDone(s: nat -> u8, first: nat, k: nat)
    requires first <= k <= first + MaxPolls
    ensures var last := LastPoll(s, first, k);
            Busy(s, k, last) && (Done(s(last)) || last == first + MaxPolls)
    decreases first + MaxPolls - k
  {
    if !Done(s(k)) && k != first + MaxPolls {
      LastPollFirstDone(s, first, k + 1);
    }
  }

  // ---------------------------------------------------------------------
  // The conversion handshake
  // ---------------------------------------------------------------------

  /** Between 2 and `MaxPolls + 2` status reads: the loop makes 1 to 8001 of
      them and stops at the first done, and the `if` re-checks exactly once. */
  lemma AnalogReadPolls(base: u32, channel: u8, s: nat -> u8, k0: nat, latch: Latch, value: s16, loFirst: bool)
    ensures var c := AnalogReadSpec(base, channel, s, k0, latch, value, loFirst);
            && 2 <= c.polls <= MaxPolls + 2
            && Busy(s, k0, k0 + c.polls - 2)
            && (Done(s(k0 + c.polls - 2)) || c.polls == MaxPolls + 2)
  {
    LastPollFirstDone(s, k0, k0);
  }

  /** The outcome depends on the re-check alone: return code 0 and the
      assembled sample when it shows the done bit, 1 and `*value` untouched when not. */
  lemma AnalogReadOutcome(base: u32, channel: u8, s: nat -> u8, k0: nat, latch: Latch, value: s16, loFirst: bool)
    ensures var c := AnalogReadSpec(base, channel, s, k0, latch, value, loFirst);
            && (c.status == 0 || c.status == 1)
            && (c.status == 0 <==> Done(s(k0 + c.polls - 1)))
            && (c.status == 0 ==> c.value == Assemble(latch.lo, latch.hi))
            && (c.status == 1 ==> c.value == value)
  {
  }

  /** The events in order: the two writes, every status read, and on success
      the debug read of ADCHI followed by the two result reads. */
  lemma AnalogReadEvents(base: u32, channel: u8, s: nat -> u8, k0: nat, latch: Latch, value: s16, loFirst: bool)
    ensures var c := AnalogReadSpec(base, channel, s, k0, latch, value, loFirst);
            && c.events[..2] == [Write(Port(base, Select), channel), Write(Port(base, Convert), 1)]
            && c.events[2..2 + c.polls] == StatusReads(base, s, k0, k0 + c.polls)
            && (c.status == 0 ==> c.events[2 + c.polls..] == SampleReads(base, latch, loFirst))
            && (c.status == 1 ==> |c.events| == 2 + c.polls)
  {
    var c := AnalogReadSpec(base, channel, s, k0, latch, value, loFirst);
    var h := Handshake(base, channel, s, k0, k0 + c.polls);
    assert h[..2] == [Write(Port(base, Select), channel), Write(Port(base, Convert), 1)];
    assert h[2..] == StatusReads(base, s, k0, k0 + c.polls);
    if c.status == 0 {
      var tail := SampleReads(base, latch, loFirst);
      assert c.events == h + tail;
      assert (h + tail)[..|h|] == h;
      assert (h + tail)[|h|..] == tail;
    }
  }

  /** Exactly two writes, SELECT with the channel (whatever its value) and then CONVERT with 1. */
  lemma AnalogReadWrites(base: u32, channel: u8, s: nat -> u8, k0: nat, latch: Latch, value: s16, loFirst: bool)
    ensures Writes(AnalogReadSpec(base, channel, s, k0, latch, value, loFirst).events)
            == [Write(Port(base, Select), channel), Write(Port(base, Convert), 1)]
  {
    var c := AnalogReadSpec(base, channel, s, k0, latch, value, loFirst);
    var h := Handshake(base, channel, s, k0, k0 + c.polls);
    HandshakeWrites(base, channel, s, k0, k0 + c.polls);
    if c.status == 0 {
      var tail := SampleReads(base, latch, loFirst);
      assert c.events == h + tail;
      WritesAppend(h, tail);
      NoWritesInReads(tail);
    } else {
      assert c.events == h;
    }
  }

  lemma HandshakeWrites(base: u32, channel: u8, s: nat -> u8, k0: nat, stop: nat)
    requires k0 <= stop
    ensures Writes(Handshake(base, channel, s, k0, stop))
            == [Write(Port(base, Select), channel), Write(Port(base, Convert), 1)]
  {
    var w := [Write(Port(base, Select), channel), Write(Port(base, Convert), 1)];
    var polled := StatusReads(base, s, k0, stop);
    WritesAppend(w, polled);
    NoWritesInReads(polled);
    WritesOfPair(w[0], w[1]);
    assert [w[0], w[1]] == w;
  }

  /** When the conversion fails, neither result register is read. */
  lemma FailureReadsOnlyStatus(base: u32, channel: u8, s: nat -> u8, k0: nat, latch: Latch, value: s16, loFirst: bool)
    ensures var c := AnalogReadSpec(base, channel, s, k0, latch, value, loFirst);
            c.status == 1 ==> forall i | 0 <= i < |c.events| && c.events[i].Read? :: c.events[i].port == Port(base, AdcStat)
  {
    var c := AnalogReadSpec(base, channel, s, k0, latch, value, loFirst);
    AnalogReadEvents(base, channel, s, k0, latch, value, loFirst);
    if c.status == 1 {
      forall i | 0 <= i < |c.events| && c.events[i].Read?
        ensures c.events[i].port == Port(base, AdcStat)
      {
        assert i >= 2 by {
          assert c.events[..2][0].Write? && c.events[..2][1].Write?;
        }
        assert c.events[i] == c.events[2..2 + c.polls][i - 2];
      }
    }
  }

  /** Done first seen on the re-check, after all `MaxPolls + 1` loop reads showed none, still succeeds. */
  lemma LateDoneSucceeds(base: u32, channel: u8, s: nat -> u8, k0: nat, latch: Latch, value: s16, loFirst: bool)
    requires Busy(s, k0, k0 + MaxPolls + 1) && Done(s(k0 + MaxPolls + 1))
    ensures var c := AnalogReadSpec(base, channel, s, k0, latch, value, loFirst);
            c.status == 0 && c.polls == MaxPolls + 2 && c.value == Assemble(latch.lo, latch.hi)
  {
    LastPollIs(s, k0, k0, k0 + MaxPolls);
  }

  /** Done seen by the loop but cleared again on the re-check fails, leaving `*value` alone. */
  lemma DoneClearedFails(base: u32, channel: u8, s: nat -> u8, k0: nat, latch: Latch, value: s16, loFirst: bool,
                         i: nat)
    requires k0 <= i <= k0 + MaxPolls && Busy(s, k0, i) && Done(s(i)) && !Done(s(i + 1))
    ensures var c := AnalogReadSpec(base, channel, s, k0, latch, value, loFirst);
            c.status == 1 && c.value == value && c.polls == i - k0 + 2
  {
    LastPollIs(s, k0, k0, i);
  }

  /** The done bit never showing: the loop runs out and the handshake fails after `MaxPolls + 2` reads. */
  lemma NeverDoneFails(base: u32, channel: u8, s: nat -> u8, k0: nat, latch: Latch, value: s16, loFirst: bool)
    requires Busy(s, k0, k0 + MaxPolls + 2)
    ensures var c := AnalogReadSpec(base, channel, s, k0, latch, value, loFirst);
            c.status == 1 && c.value == value && c.polls == MaxPolls + 2
  {
    LastPollIs(s, k0, k0, k0 + MaxPolls);
  }

  /** A conversion already complete on the first poll: two status reads, then the three result-register reads. */
  lemma ImmediateDone(base: u32, channel: u8, s: nat -> u8, k0: nat, latch: Latch, value: s16, loFirst: bool)
    requires Done(s(k0)) && Done(s(k0 + 1))
    ensures AnalogReadSpec(base, channel, s, k0, latch, value, loFirst)
            == Conversion(0, Assemble(latch.lo, latch.hi), 2,
                          [Write(Port(base, Select), channel), Write(Port(base, Convert), 1),
                           Read(Port(base, AdcStat), s(k0)), Read(Port(base, AdcStat), s(k0 + 1))]
                          + SampleReads(base, latch, loFirst))
  {
    var polled := StatusReads(base, s, k0, k0 + 2);
    assert polled == [Read(Port(base, AdcStat), s(k0)), Read(Port(base, AdcStat), s(k0 + 1))];
  }

  /** The order in which the two result bytes are fetched changes the order of the reads and nothing else. */
  lemma ReadOrderIrrelevant(base: u32, channel: u8, s: nat -> u8, k0: nat, latch: Latch, value: s16)
    ensures var c, c' := AnalogReadSpec(base, channel, s, k0, latch, value, true),
                         AnalogReadSpec(base, channel, s, k0, latch, value, false);
            && c.status == c'.status && c.value == c'.value && c.polls == c'.polls
            && multiset(c.events) == multiset(c'.events)
  {
    var lo: Event, hi: Event := Read(Port(base, AdcLo), latch.lo), Read(Port(base, AdcHi), latch.hi);
    assert multiset([hi, lo, hi]) == multiset([hi, hi, lo]);
  }

  // ---------------------------------------------------------------------
  // Start-up
  // ---------------------------------------------------------------------

  /** A refused reservation: `-EADDRINUSE`, no reports, and no port is touched. */
  lemma InitRefused(base: u32, s: nat -> u8, latched: nat -> Latch, k0: nat, c0: nat, loFirst: bool)
    ensures var st := InitSpec(base, false, s, latched, k0, c0, loFirst);
            && st.rc == -98 && st.reports == []
            && st.events == [Request(base, 16)]
            && Writes(st.events) == []
  {
  }

  /** Each channel of the sweep, in order: its number, a return code of 0 or
      1, the sample of its own conversion on success and the initial 0 otherwise. */
  lemma {:induction false} SweepReports(base: u32, s: nat -> u8, latched: nat -> Latch, k0: nat, c0: nat,
                                        loFirst: bool, n: nat)
    requires n <= 16
    ensures var sw := SweepSpec(base, s, latched, k0, c0, loFirst, n);
            sw.conversions == c0 + n && ReportsOk(sw.reports, latched, c0, n)
  {
    if n > 0 {
      var prev := SweepSpec(base, s, latched, k0, c0, loFirst, n - 1);
      SweepReports(base, s, latched, k0, c0, loFirst, n - 1);
      var r := SweepLast(base, s, latched, k0, c0, loFirst, n);
      ReportsStep(prev.reports, r, latched, c0, n);
    }
  }

  /** The last channel of a sweep over `n` channels adds one report, for channel `n - 1`. */
  lemma SweepLast(base: u32, s: nat -> u8, latched: nat -> Latch, k0: nat, c0: nat, loFirst: bool, n: nat)
    returns (r: Report)
    requires 0 < n <= 16
    ensures var sw, prev := SweepSpec(base, s, latched, k0, c0, loFirst, n),
                            SweepSpec(base, s, latched, k0, c0, loFirst, n - 1);
            && sw.conversions == prev.conversions + 1
            && sw.reports == prev.reports + [r]
            && ReportOk(r, n - 1, latched(sw.conversions))
  {
    var prev := SweepSpec(base, s, latched, k0, c0, loFirst, n - 1);
    var latch := latched(prev.conversions + 1);
    var c := AnalogReadSpec(base, (n - 1) as u8, s, prev.statusReads, latch, 0, loFirst);
    AnalogReadOutcome(base, (n - 1) as u8, s, prev.statusReads, latch, 0, loFirst);
    r := Report(n - 1, c.status, c.value);
  }

  /** The report line of channel `i`, whose conversion latched `latch`. */
  ghost predicate ReportOk(r: Report, i: nat, latch: Latch)
  {
    && r.channel == i
    && (r.status == 0 || r.status == 1)
    && (r.status == 0 ==> r.value == Assemble(latch.lo, latch.hi))
    && (r.status == 1 ==> r.value == 0)
  }

  /** The reports of channels 0 to n-1, the i-th conversion having latched `latched(c0 + i + 1)`. */
  ghost predicate ReportsOk(rs: seq<Report>, latched: nat -> Latch, c0: nat, n: nat)
  {
    |rs| == n && forall i | 0 <= i < n :: ReportOk(rs[i], i, latched(c0 + i + 1))
  }

  lemma ReportsStep(rs: seq<Report>, r: Report, latched: nat -> Latch, c0: nat, n: nat)
    requires n > 0 && ReportsOk(rs, latched, c0, n - 1) && ReportOk(r, n - 1, latched(c0 + n))
    ensures ReportsOk(rs + [r], latched, c0, n)
  {
    var rs' := rs + [r];
    forall i | 0 <= i < n
      ensures ReportOk(rs'[i], i, latched(c0 + i + 1))
    {
      if i < n - 1 {
        assert rs'[i] == rs[i];
      }
    }
  }

  /** The writes of the sweep: for each channel in order, SELECT with its number then CONVERT with 1. */
  lemma {:induction false} SweepWrites(base: u32, s: nat -> u8, latched: nat -> Latch, k0: nat, c0: nat,
                                       loFirst: bool, n: nat)
    requires n <= 16
    ensures SelectConvertPairs(Writes(SweepSpec(base, s, latched, k0, c0, loFirst, n).events), base, n)
  {
    if n > 0 {
      var prev := SweepSpec(base, s, latched, k0, c0, loFirst, n - 1);
      var c := AnalogReadSpec(base, (n - 1) as u8, s, prev.statusReads, latched(prev.conversions + 1), 0, loFirst);
      SweepWrites(base, s, latched, k0, c0, loFirst, n - 1);
      AnalogReadWrites(base, (n - 1) as u8, s, prev.statusReads, latched(prev.conversions + 1), 0, loFirst);
      WritesAppend(prev.events, c.events);
      PairsStep(Writes(prev.events), base, n);
    }
  }

  /** `ws` holds, for channels 0 to n-1 in order, a SELECT write of the channel and a CONVERT write of 1. */
  ghost predicate SelectConvertPairs(ws: seq<Event>, base: u32, n: nat)
  {
    && n <= 16 && |ws| == 2 * n
    && forall i | 0 <= i < n :: ws[2 * i] == Write(Port(base, Select), i as u8)
                              && ws[2 * i + 1] == Write(Port(base, Convert), 1)
  }

  lemma PairsStep(ws: seq<Event>, base: u32, n: nat)
    requires 0 < n <= 16 && SelectConvertPairs(ws, base, n - 1)
    ensures SelectConvertPairs(ws + [Write(Port(base, Select), (n - 1) as u8), Write(Port(base, Convert), 1)], base, n)
  {
    var ws' := ws + [Write(Port(base, Select), (n - 1) as u8), Write(Port(base, Convert), 1)];
    forall i | 0 <= i < n
      ensures ws'[2 * i] == Write(Port(base, Select), i as u8) && ws'[2 * i + 1] == Write(Port(base, Convert), 1)
    {
      if i < n - 1 {
        assert ws'[2 * i] == ws[2 * i] && ws'[2 * i + 1] == ws[2 * i + 1];
      }
    }
  }

  /** A granted reservation: return 0 and the 16 channel reports; as writes, a
      single CONTROL reset followed by SELECT and CONVERT for channels 0 to 15. */
  lemma InitGranted(base: u32, s: nat -> u8, latched: nat -> Latch, k0: nat, c0: nat, loFirst: bool)
    ensures var st := InitSpec(base, true, s, latched, k0, c0, loFirst);
            var ws := Writes(st.events);
            && st.rc == 0 && st.events[0] == Request(base, PortRange)
            && ReportsOk(st.reports, latched, c0, 16)
            && |ws| > 0 && ws[0] == Write(Port(base, Control), 0)
            && SelectConvertPairs(ws[1..], base, 16)
            && (forall j | 1 <= j < |ws| :: ws[j].port != Port(base, Control))
  {
    var sw := SweepSpec(base, s, latched, k0, c0, loFirst, 16);
    var head := [Request(base, PortRange), Write(Port(base, Control), 0)];
    InitSpecCases(base, true, s, latched, k0, c0, loFirst);
    SweepReports(base, s, latched, k0, c0, loFirst, 16);
    SweepWrites(base, s, latched, k0, c0, loFirst, 16);
    WritesAppend(head, sw.events);
    assert Writes(head) == [Write(Port(base, Control), 0)] by {
      assert head[1..] == [head[1]] && [head[1]][1..] == [];
    }
    PortsDistinct(base);
    PairsAvoidPort(Writes(sw.events), base, 16, Port(base, Control));
    var ws := Writes(head + sw.events);
    assert ws[1..] == Writes(sw.events);
  }

  /** A SELECT/CONVERT sequence writes no other port. */
  lemma PairsAvoidPort(ws: seq<Event>, base: u32, n: nat, port: u32)
    requires SelectConvertPairs(ws, base, n)
    requires port != Port(base, Select) && port != Port(base, Convert)
    ensures forall j | 0 <= j < |ws| :: ws[j].Write? && ws[j].port != port
  {
    forall j | 0 <= j < |ws|
      ensures ws[j].Write? && ws[j].port != port
    {
      var i := j / 2;
      assert j == 2 * i || j == 2 * i + 1;
    }
  }

  // ---------------------------------------------------------------------
  // Writes in a trace
  // ---------------------------------------------------------------------

  /** The write events of a trace, in order. */
  function Writes(e: seq<Event>): (ws: seq<Event>)
    ensures |ws| <= |e|
    ensures forall i | 0 <= i < |ws| :: ws[i].Write?
  {
    if e == [] then []
    else (if e[0].Write? then [e[0]] else []) + Writes(e[1..])
  }

  lemma {:induction false} WritesAppend(a: seq<Event>, b: seq<Event>)
    ensures Writes(a + b) == Writes(a) + Writes(b)
  {
    if a == [] {
      assert a + b == b;
    } else {
      var x := if a[0].Write? then [a[0]] else [];
      assert (a + b)[0] == a[0];
      assert (a + b)[1..] == a[1..] + b;
      WritesAppend(a[1..], b);
      calc {
        Writes(a + b);
        x + Writes(a[1..] + b);
        x + (Writes(a[1..]) + Writes(b));
        { AppendAssoc(x, Writes(a[1..]), Writes(b)); }
        (x + Writes(a[1..])) + Writes(b);
        Writes(a) + Writes(b);
      }
    }
  }

  lemma {:induction false} NoWritesInReads(e: seq<Event>)
    requires forall i | 0 <= i < |e| :: e[i].Read?
    ensures Writes(e) == []
  {
    if e != [] {
      assert e[0].Read?;
      NoWritesInReads(e[1..]);
    }
  }

  lemma WritesOfPair(w1: Event, w2: Event)
    requires w1.Write? && w2.Write?
    ensures Writes([w1, w2]) == [w1, w2]
  {
    assert [w1, w2][1..] == [w2];
    assert [w2][1..] == [];
  }
}
