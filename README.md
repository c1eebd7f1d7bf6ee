# VCM-DAS-1 driver model

A Dafny model of the Linux driver for the Versalogic VCM-DAS-1 I/O module
(`vcmdas1.c`). It covers the part of the driver that has logic in it:

- the done-bit test (`vcmdas1_conversion_done`);
- the conversion handshake (`vcmdas1_analog_read`). It selects a channel,
  starts a conversion, and busy-polls the status register at most 8001 times.
  A `u16` counter stops the loop at 8000, but the status is read before the
  counter is tested. It then checks the done bit once more, and then either assembles the signed 16-bit
  sample from the two result bytes or reports failure;
- the start-up routine (`vcmdas1_init`). It reserves the 16-port I/O window,
  resets the control register and converts channels 0 to 15 in turn;
- the teardown routine (`vcmdas1_exit`). It releases the window.

## Layout

- `registers.dfy`, module `Registers`:
  - the C types `u8` (an 8-bit vector, so masks and shifts are the C operators), `u16`, `unsigned` and `s16`;
  - the register offsets, bit masks and constants of the driver;
  - the two pure expressions of the handshake. `DoneMask` is the done-bit test. `Assemble` builds the sample as `lo | (hi << 8)` stored into an `s16`.
- `port_io.dfy`, module `PortIo`: class `Board` stands for the board on the
  port-I/O bus and for the kernel's `inb`/`outb` and `request_region`/`release_region`.
  - The board answers from scripts. The n-th read of the status register returns `status(n)`. After the k-th write to the convert register, the result registers hold `latched(k)`.
  - Every access is appended to the field `trace`.
- `vcmdas1.dfy`, module `Vcmdas1`: the driver.
  - Each routine is a method on a `Board` with a `modifies` clause.
  - The smaller steps `ConversionDone`, `BusyPoll`, `ReadSample`, `StartAndWait` and `Exit` state their results and the board's new state directly.
  - The three top-level routines `AnalogRead`, `SweepChannels` and `Init` are proved against a specification function of the board's state on entry: `AnalogReadSpec`, `SweepSpec` and `InitSpec`. The function gives the return code, the sample, the number of status reads and the events the method appends to the trace.
- `vcmdas1_properties.dfy`, module `Vcmdas1Properties`: what the driver
  promises, proved as lemmas about those specification functions. The
  methods' postconditions tie each lemma to the driver itself.

Two inputs are parameters of the model:

- `granted`: whether the host grants the reservation.
- `loFirst`: the order in which the compiled code reads the two operands of the `|` on lines 67-68. C leaves that order unsequenced.

## Model

| member | source | states |
|---|---|---|
| `Registers.Port` | vcmdas1.c:53 | a register address is the base address plus the offset, in 32-bit unsigned arithmetic that wraps around |
| `Registers.DoneMask` | vcmdas1.c:52-54 | the test yields 0 or 0x40, and is non-zero exactly when bit 6 of the status byte is set |
| `Registers.ToS16` | vcmdas1.c:67-68 | storing a 16-bit pattern into an `s16` keeps the value modulo 2^16, and the result is negative exactly when the pattern is at least 0x8000 |
| `Registers.Assemble` | vcmdas1.c:67-68 | the sample's 16-bit pattern is `lo + 256 * hi`, and the sample is negative exactly when bit 7 of the high byte is set |
| `Vcmdas1.LastPollIs` | vcmdas1.c:63 | if no read from `k` up to `i` shows the done bit, and read `i` shows it (or `i` is the last read the counter allows), the loop stops at read `i` |
| `Vcmdas1.ConversionDone` | vcmdas1.c:52-54 | returns the done mask of the next scripted status byte, consumes exactly one status read and appends exactly that read to the trace |
| `Vcmdas1.BusyPoll` | vcmdas1.c:63 | the counter ends at most 8000 after `count + 1` status reads. No read before the last shows the done bit, and the last shows it or the counter is 8000. The trace gains exactly those reads |
| `Vcmdas1.StartAndWait` | vcmdas1.c:60-65 | the trace gains `SELECT := channel`, `CONVERT := 1`, the loop's reads and one re-check read. One conversion is started. The returned flag is the re-check's done mask |
| `Vcmdas1.ReadSample` | vcmdas1.c:66-68 | the sample is assembled from the latched bytes. The trace gains the ADCHI read of the debug print, then the two operand reads in the chosen order |
| `Vcmdas1.AnalogRead` | vcmdas1.c:57-73 | the return code, the new `*value`, the trace, the status reads and the conversions are those of `AnalogReadSpec` for the board's state on entry |
| `Vcmdas1.AnalogReadSpecAt` | vcmdas1.c:63-72 | once the loop has stopped after `count` increments and the re-check has read `done`, the handshake makes `count + 2` status reads. A set flag gives return code 0, the assembled sample and the result-register reads. A clear flag gives return code 1 and the entry value of `*value` |
| `Vcmdas1.Init` | vcmdas1.c:76-96 | the return code, the reports of the sweep and the trace are those of `InitSpec` for the board's state on entry. A refused reservation leaves both counters unchanged. A granted one leaves them where the 16-channel sweep of `SweepSpec` ends |
| `Vcmdas1.SweepChannels` | vcmdas1.c:88-93 | the board's state after the loop, its trace and the reports are those of `SweepSpec` over 16 channels |
| `Vcmdas1.Exit` | vcmdas1.c:99-101 | the trace gains a single release of the 16 ports at the base address, and no counter changes |
| `Vcmdas1Properties.DoneIgnoresOtherBits` | vcmdas1.c:45-54 | flipping any bits other than 0x40 does not change the done test |
| `Vcmdas1Properties.BusyBitIgnored` | vcmdas1.c:45-54 | the BUSY bit (0x80) never affects the done test |
| `Vcmdas1Properties.AssembleExamples` | vcmdas1.c:67-68 | 0x34/0x12 gives 0x1234, 0x00/0x80 gives -32768, 0xFF/0xFF gives -1, and 0x10/0x00 gives 16 |
| `Vcmdas1Properties.SampleOfPattern` | vcmdas1.c:67-68 | the sample is the only `s16` whose pattern is `lo + 256 * hi` |
| `Vcmdas1Properties.AssembleInjective` | vcmdas1.c:67-68 | different byte pairs give different samples, so assembly loses no information |
| `Vcmdas1Properties.LastPollCharacterized` | vcmdas1.c:63 | the loop stops at read `i` if and only if `i` is the first read showing the done bit, or the last allowed read when none of them does |
| `Vcmdas1Properties.LastPollFirstDone` | vcmdas1.c:63 | the read where the loop stops is preceded only by reads without the done bit, and shows it unless the counter ran out |
| `Vcmdas1Properties.AnalogReadPolls` | vcmdas1.c:63-65 | a handshake makes between 2 and 8002 status reads: 1 to 8001 in the loop, stopping at the first done, plus exactly one re-check |
| `Vcmdas1Properties.AnalogReadOutcome` | vcmdas1.c:65-72 | the return code is 0 or 1, and it is 0 exactly when the re-check shows the done bit. On 0 the sample is assembled from the latched bytes. On 1 `*value` is unchanged |
| `Vcmdas1Properties.AnalogReadEvents` | vcmdas1.c:60-68 | the events in order: the SELECT and CONVERT writes, every status read, and then, on success only, the ADCHI print read and the two result reads. A failed handshake has no other events |
| `Vcmdas1Properties.AnalogReadWrites` | vcmdas1.c:60-61 | the handshake writes exactly twice: SELECT with the channel, passed on unchecked, then CONVERT with 1 |
| `Vcmdas1Properties.HandshakeWrites` | vcmdas1.c:60-63 | the selection, the start and any number of status reads contain just the two writes |
| `Vcmdas1Properties.FailureReadsOnlyStatus` | vcmdas1.c:65-71 | a failed handshake reads only the status register, never ADCLO or ADCHI |
| `Vcmdas1Properties.LateDoneSucceeds` | vcmdas1.c:63-69 | if the done bit first shows on the re-check after all 8001 loop reads, the handshake still succeeds and returns the sample |
| `Vcmdas1Properties.DoneClearedFails` | vcmdas1.c:63-71 | if the loop sees the done bit but the re-check does not, the handshake returns 1 and leaves `*value` alone |
| `Vcmdas1Properties.NeverDoneFails` | vcmdas1.c:63-71 | if the done bit never shows, the handshake fails after 8002 status reads with `*value` unchanged |
| `Vcmdas1Properties.ImmediateDone` | vcmdas1.c:60-69 | if the first poll and the re-check both show the done bit, the whole handshake is the two writes, two status reads and the three result-register reads, and it returns the sample |
| `Vcmdas1Properties.ReadOrderIrrelevant` | vcmdas1.c:67-68 | the compiler's order for the two operand reads changes only the order of the events, never the code, the sample or the reads made |
| `Vcmdas1Properties.InitRefused` | vcmdas1.c:79-83 | a refused reservation returns -98 (`-EADDRINUSE`) with no reports, and its only event is the request for 16 ports, so it writes nothing |
| `Vcmdas1Properties.SweepReports` | vcmdas1.c:88-93 | the sweep gives one report per channel 0 to n-1 in order, with code 0 or 1. It carries the sample of that channel's own conversion on success and the initial 0 otherwise |
| `Vcmdas1Properties.SweepLast` | vcmdas1.c:88-93 | the last channel of a sweep starts one conversion and adds exactly one report, for that channel |
| `Vcmdas1Properties.SweepWrites` | vcmdas1.c:88-90 | the writes of a sweep are, for each channel in order, SELECT with its number followed by CONVERT with 1 |
| `Vcmdas1Properties.InitGranted` | vcmdas1.c:76-96 | a granted start-up returns 0 and the 16 well-formed reports. Its writes are one CONTROL reset, then SELECT/CONVERT pairs for channels 0 to 15, with no second write to the control port |

## Left out

- Module registration. The `MODULE_*` macros and `module_init`/`module_exit` carry no logic. The `base_address` module parameter becomes the board's `base`, fixed when the board is built. `DefaultBase` records its default.
- Diagnostics. The text `printk` prints is not modelled, because it is output formatting. Two things about it are kept. Line 66 reads ADCHI, and that read is in the trace. Each channel's line 91-92 message appears as a `Report` returned by `Init`. The message about a refused reservation (lines 80-81) is not modelled.
- Pausing. `inb_p`/`outb_p` behave as `inb`/`outb`, because their short delay is timing and no part of the logic.
- Hardware timing. The status register and the latched result bytes are scripts given as inputs. The model does not capture when the converter actually finishes.
- Unused register map entries. TDELAY, the digital, serial, D/A, digital-potentiometer and EEPROM registers and masks (lines 35-49) are not modelled, because no modelled routine uses them.
- The reservation manager. Whether `request_region` grants the window is the input `granted`. The name `"vcmdas1"` it records is not modelled.
- The release. `release_region` is an event in the trace. What the host does with it is outside this model.
- Concurrency and reentrancy. The kernel runs init and exit once, on one thread.
- Port numbers are 32-bit `unsigned` values. They are not narrowed to the platform's port type.
- `Registers.ToS16`: the conversion of a `u16` of 0x8000 or more into `s16` is modelled as two's complement. C leaves that conversion to the implementation, and GCC documents two's complement.
- `Vcmdas1.LastPoll`: its own contract states only where the stopping read can lie. The rest of what it promises is stated by `Vcmdas1.LastPollIs` and `Vcmdas1Properties.LastPollCharacterized`.

## Behaviour of the code worth noting

- **Window size.** The code reserves and releases `PORT_RANGE`, which is 16 ports (line 28), although its register map only names offsets 0 to 9 (lines 31-42).
- **Reset.** The reset is a single write of 0 to CONTROL (line 86).
- **First-poll done.** The status is always read once more after the loop (line 65). A conversion whose done bit shows at the first poll and on the re-check therefore costs two status reads (`ImmediateDone`).
- **Late done.** The decision rests on the re-check, not on the loop. A done bit that first shows on the re-check after the counter has run out still succeeds (`LateDoneSucceeds`). A done bit the loop saw but the re-check does not see fails (`DoneClearedFails`).
- **Result reads.** Before the two result bytes, ADCHI is read once more for the debug print (line 66). The two bytes are then read in an order C leaves unsequenced (`loFirst`).
- **Refused reservation.** The code returns without a release (lines 79-83), since it holds nothing then (`InitRefused`).
