/**
 * Register map of the VCM-DAS-1 I/O window, the fixed-width types the driver
 * uses, and the two pure expressions of the conversion handshake: the done-bit
 * test and the assembly of a sample from its two bytes.
 *
 * Bytes are 8-bit vectors, so that masks and shifts are the C operators;
 * addresses, counters and samples are bounded `int` subset types.
 */
module Registers {

  /** C `u8`, `u16`, `unsigned` (32 bits) and `s16`. */
  type u8 = bv8
  type u16 = x: int | 0 <= x < 0x1_0000
  type u32 = x: int | 0 <= x < 0x1_0000_0000
  type s16 = x: int | -0x8000 <= x < 0x8000

  /** Default value of the `base_address` module parameter.  The driver's routines
      take the base from the board, so no member here uses it. */
  const DefaultBase: u32 := 0x3E0

  /** Number of I/O ports the driver reserves, starting at the base address. */
  const PortRange: nat := 16

  // Register offsets from the base address.  Offset 0 is the status register
  // when read and the control register when written.
  const AdcStat: u32 := 0x00
  const Control: u32 := 0x00
  const Select: u32 := 0x01
  const Convert: u32 := 0x02
  const AdcLo: u32 := 0x04
  const AdcHi: u32 := 0x05

  // Bits of the status register.
  const DoneBit: u8 := 0x40
  const BusyBit: u8 := 0x80

  /** Bound of the busy-poll counter.  The loop reads the status before it tests
      the counter, so it makes up to `MaxPolls + 1` reads before the re-check. */
  const MaxPolls: nat := 8000

  /** `EADDRINUSE` of the Linux errno table; the start-up routine returns its negation. */
  const EAddrInUse: int := 98

  /** Address of the register at `offset`: the C sum of two `unsigned` values, which wraps. */
  function Port(base: u32, offset: u32): (p: u32)
    ensures p == base + offset || p == base + offset - 0x1_0000_0000
  {
    (base + offset) % 0x1_0000_0000
  }

  /** The status byte masked with the done bit: what `vcmdas1_conversion_done` returns. */
  function DoneMask(status: u8): (r: u8)
    ensures r == 0 || r == DoneBit
    ensures r != 0 <==> (status >> 6) & 1 == 1
  {
    status & DoneBit
  }

  /** The conversion-complete flag of a status byte. */
  predicate Done(status: u8)
  {
    DoneMask(status) != 0
  }

  /** A 16-bit pattern read as two's complement, the way GCC converts it to `s16`. */
  function ToS16(w: u16): (v: s16)
    ensures v % 0x1_0000 == w
    ensures v < 0 <==> w >= 0x8000
  {
    if w < 0x8000 then w else w - 0x1_0000
  }

  /** `low | (high << 8)`, each byte widened to `u16`, stored into an `s16`. */
  function Assemble(lo: u8, hi: u8): (v: s16)
    ensures v % 0x1_0000 == lo as int + 0x100 * hi as int
    ensures v < 0 <==> hi >= 0x80
  {
    OrIsSum(lo, hi);
    ToS16((((lo as bv16) | ((hi as bv16) << 8))) as int)
  }

  // Bit-vector arithmetic facts, one per lemma: the solver handles each alone.

  lemma OrIsSum(lo: u8, hi: u8)
    ensures ((lo as bv16) | ((hi as bv16) << 8)) as int == lo as int + 0x100 * hi as int
  {
    var w := (lo as bv16) | ((hi as bv16) << 8);
    OrHighByte(lo, hi);
    OrLowByte(lo, hi);
    LowByteValue(w);
  }

  lemma OrHighByte(lo: u8, hi: u8)
    ensures (((lo as bv16) | ((hi as bv16) << 8)) >> 8) as int == hi as int
  {
    OrFields(lo as bv16, hi as bv16);
    Widen(hi);
  }

  lemma OrLowByte(lo: u8, hi: u8)
    ensures (((lo as bv16) | ((hi as bv16) << 8)) & 0xFF) as int == lo as int
  {
    OrFields(lo as bv16, hi as bv16);
    Widen(lo);
  }

  lemma Widen(x: u8)
    ensures (x as bv16) as int == x as int
  {
  }

  lemma OrFields(l: bv16, h: bv16)
    requires l < 0x100 && h < 0x100
    ensures (l | (h << 8)) >> 8 == h
    ensures (l | (h << 8)) & 0xFF == l
  {
  }

  lemma LowByteValue(w: bv16)
    ensures (w & 0xFF) as int == w as int - (w >> 8) as int * 0x100
  {
  }
}
