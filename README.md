# IST8308 magnetometer driver — a Dafny model

This project models the control logic of the PX4 driver for the Isentek
IST8308 three-axis magnetometer (`src/drivers/magnetometer/isentek/ist8308/IST8308.cpp`)
and proves properties of it. The model has four modules:

- `Registers` (`registers.dfy`): the sensor's register file, a sequence of 256
  bytes. It holds the read-modify-write value `(orig | set) & ~clear` and the
  success predicate of a `{reg, set_bits, clear_bits}` check. Bit-level lemmas
  state what these mean.
- `Decode` (`decode.dfy`): `combine`, which turns a high/low byte pair into a
  signed 16-bit axis value. It also holds the seven-byte transfer buffer, the
  data-ready gate and the decoded sample.
- `Configuration` (`configuration.dfy`): a configuration pass over the whole
  table as a function, with lemmas about it (its success condition, the
  absence of short-circuiting, convergence). It also holds the round-robin
  cursor of the incremental health check and the lemma that one round visits
  every table entry once.
- `Driver` (`driver.dfy`): the driver as a class `IST8308` with these fields:
  - the state enum;
  - the reset and last-check timestamps;
  - the health-check cursor;
  - the bad-register and bad-transfer counters;
  - the register file;
  - a log of scheduler requests (`ScheduleNow`, `ScheduleDelayed`,
    `ScheduleOnInterval`, `ScheduleClear`);
  - a log of published samples.

  Its methods are the register accessors, `RegisterCheck`, `Configure` (a
  loop over the table), `Probe`, `Reset`, `Init` and `Run`. `Run` does one
  step of RESET → WAIT_FOR_RESET → CONFIGURE → READ and REQUEST_STOP →
  STOPPED per call. Each state's step is one two-state predicate
  (`ResetStep`, `WaitForResetStep`, `ConfigureStep`, `ReadStep`,
  `RequestStopStep`, `StoppedStep`), and `Run` proves the one that matches
  the state it started in.

Inputs the driver gets from outside become parameters:
- The clock reading `now`: `hrt_abstime`, unsigned 64-bit microseconds. The
  elapsed time is their difference modulo 2^64.
- Whether the READ state's block transfer succeeded.
- Whether the bus attached during `Init`.

The header `IST8308.hpp` is not part of this model. The device id, the
WAI/CNTL3/STAT register addresses, the SRST and DRDY masks and the
configuration table are therefore constructor parameters. The table must be
nonempty.

Two behaviours are modelled as the code is written, not as it may have been
meant:
- The set-bits half of a register check fails only when *none* of the
  required set bits is present (`PartialSetBitsPass` shows an entry that
  passes with a bit missing).
- The data-ready gate `buffer.STAT && STAT_BIT::DRDY` is a logical AND. It
  therefore holds for every nonzero status byte (`DataReadyIgnoresBit`).

## Model

| member | source | states |
|---|---|---|
| Registers.SetAndClearBit | src/drivers/magnetometer/isentek/ist8308/IST8308.cpp:281-295 | after the read-modify-write, a bit is 1 iff it is not in clear and is in set or was 1: clear wins where set and clear overlap |
| Registers.SetAndClearIdempotent | src/drivers/magnetometer/isentek/ist8308/IST8308.cpp:281-295 | applying the same set/clear twice leaves what applying it once leaves |
| Registers.SetRequirementMeaning | src/drivers/magnetometer/isentek/ist8308/IST8308.cpp:245-248 | the set-bits test passes iff set_bits is 0 or some required set bit is present |
| Registers.ClearRequirementMeaning | src/drivers/magnetometer/isentek/ist8308/IST8308.cpp:250-253 | the clear-bits test passes iff no required clear bit is present |
| Registers.CheckPassesMeaning | src/drivers/magnetometer/isentek/ist8308/IST8308.cpp:239-253 | a check passes iff (set_bits == 0 or some set bit is present) and no clear bit is present, stated bit by bit |
| Registers.RecheckAfterCorrection | src/drivers/magnetometer/isentek/ist8308/IST8308.cpp:255-262 | after the corrective write, an immediate re-check passes iff set_bits is 0 or not wholly inside clear_bits |
| Registers.FixPasses | src/drivers/magnetometer/isentek/ist8308/IST8308.cpp:255-256 | for a correctable entry, the register passes its check after the check, whatever it held before |
| Registers.NonOverlappingIsCorrectable | src/drivers/magnetometer/isentek/ist8308/IST8308.cpp:256 | an entry whose set and clear bits do not overlap is correctable |
| Registers.PartialSetBitsPass | src/drivers/magnetometer/isentek/ist8308/IST8308.cpp:245 | an entry requiring bits 0 and 1 set passes on 0x01, where bit 1 is missing |
| Decode.ShiftOrValue | src/drivers/magnetometer/isentek/ist8308/IST8308.cpp:40 | the shift-or of msb by 8 with lsb, read as a number, is `msb * 256 + lsb` |
| Decode.Word | src/drivers/magnetometer/isentek/ist8308/IST8308.cpp:40 | the unsigned word is `msb * 256 + lsb`, below 0x10000, and below 0x8000 iff msb < 0x80 |
| Decode.Combine | src/drivers/magnetometer/isentek/ist8308/IST8308.cpp:38-41 | the result is a signed 16-bit value: the word itself when msb < 0x80, the word minus 65536 otherwise |
| Decode.CombineValue | src/drivers/magnetometer/isentek/ist8308/IST8308.cpp:38-41 | combine(msb, lsb) is `msb*256 + lsb` if msb < 0x80 and `msb*256 + lsb - 65536` otherwise |
| Decode.CombineInjective | src/drivers/magnetometer/isentek/ist8308/IST8308.cpp:38-41 | two byte pairs that decode to the same value are equal |
| Decode.CombineExamples | src/drivers/magnetometer/isentek/ist8308/IST8308.cpp:38-41 | (0x01,0x00) gives 256, (0xFF,0xFF) gives -1, (0x80,0x00) gives -32768 |
| Decode.DataReadyIffNonzero | src/drivers/magnetometer/isentek/ist8308/IST8308.cpp:186 | with a nonzero DRDY constant, the gate holds iff the status byte is nonzero |
| Decode.DataReadyIgnoresBit | src/drivers/magnetometer/isentek/ist8308/IST8308.cpp:186 | the gate holds for a nonzero status byte whose DRDY bit is clear |
| Decode.DecodeSample | src/drivers/magnetometer/isentek/ist8308/IST8308.cpp:186-191 | the sample carries the sample time, and each axis is a signed 16-bit value that is negative iff its high byte's top bit is set |
| Configuration.ConfigureOkIff | src/drivers/magnetometer/isentek/ist8308/IST8308.cpp:222-236 | a pass succeeds iff every entry passes on the register file as it was before the pass (also when entries share a register), and a successful pass writes nothing |
| Configuration.ConfigureKeepsUntargeted | src/drivers/magnetometer/isentek/ist8308/IST8308.cpp:226-230 | a pass leaves every register that no table entry names unchanged |
| Configuration.ConfigureCorrectsEach | src/drivers/magnetometer/isentek/ist8308/IST8308.cpp:226-230 | no short-circuit: with one entry per register, each entry's register ends as that entry's check leaves it (corrected iff it failed) |
| Configuration.ConfigureConverges | src/drivers/magnetometer/isentek/ist8308/IST8308.cpp:147-157 | with one correctable entry per register, the pass after any pass succeeds |
| Configuration.ConflictingTableNeverConfigures | src/drivers/magnetometer/isentek/ist8308/IST8308.cpp:222-236 | two entries on one register that demand bit 0 set and bit 0 clear make every pass fail |
| Configuration.NextCursor | src/drivers/magnetometer/isentek/ist8308/IST8308.cpp:198 | the advanced cursor stays below size_register_cfg: the next index, wrapping to 0 after the last |
| Configuration.CursorTraceAt | src/drivers/magnetometer/isentek/ist8308/IST8308.cpp:196-198 | within one round, the i-th checked entry is cursor + i, wrapped once |
| Configuration.RoundRobinVisitsEachOnce | src/drivers/magnetometer/isentek/ist8308/IST8308.cpp:194-199 | n passing checks from any cursor visit each of the n entries exactly once, in table order |
| Driver.Elapsed | src/drivers/magnetometer/isentek/ist8308/IST8308.cpp:134 | elapsed time is the unsigned 64-bit difference: `now - then` without wrap, `2^64 - (then - now)` with wrap |
| Driver.ResetTimeoutStrict | src/drivers/magnetometer/isentek/ist8308/IST8308.cpp:134-137 | a reset retry is due iff more than 100 ms passed, so not at exactly 100 ms |
| Driver.ReadSampleExample | src/drivers/magnetometer/isentek/ist8308/IST8308.cpp:162-191 | with STAT = 1 and the data bytes (0x00,0x01), (0xFF,0xFF), (0x00,0x80) after it, the gate holds and the block read decodes to the axes 256, -1, -32768 |
| Driver.ReadSampleInjective | src/drivers/magnetometer/isentek/ist8308/IST8308.cpp:162-191 | two register files whose block reads decode to the same sample hold the same six data bytes after STAT |
| Driver.IST8308.constructor | src/drivers/magnetometer/isentek/ist8308/IST8308.cpp:43-51 | a new driver is STOPPED, with zero timestamps, cursor and counters, and nothing scheduled or published |
| Driver.IST8308.RegisterRead | src/drivers/magnetometer/isentek/ist8308/IST8308.cpp:267-273 | returns the register's current value and changes nothing |
| Driver.IST8308.RegisterWrite | src/drivers/magnetometer/isentek/ist8308/IST8308.cpp:275-279 | writes that register and no other |
| Driver.IST8308.RegisterSetAndClearBits | src/drivers/magnetometer/isentek/ist8308/IST8308.cpp:281-295 | writes (orig OR set) AND NOT clear to that register and leaves all others unchanged |
| Driver.IST8308.RegisterSetBits | src/drivers/magnetometer/isentek/ist8308/IST8308.cpp:297-300 | the special case clear = 0: writes orig OR set |
| Driver.IST8308.RegisterClearBits | src/drivers/magnetometer/isentek/ist8308/IST8308.cpp:302-305 | the special case set = 0: writes `orig & ~clear` |
| Driver.IST8308.RegisterCheck | src/drivers/magnetometer/isentek/ist8308/IST8308.cpp:239-265 | returns the check predicate on the current value. It writes nothing and keeps the counter on success. On failure it applies the set/clear correction and counts one bad register iff notify |
| Driver.IST8308.Configure | src/drivers/magnetometer/isentek/ist8308/IST8308.cpp:222-237 | the register file after the loop is the configuration pass's. Success iff every entry passed before correction. Success writes nothing, and the counter is never changed |
| Driver.IST8308.Probe | src/drivers/magnetometer/isentek/ist8308/IST8308.cpp:99-109 | PX4_OK iff the who-am-i register equals the device id, PX4_ERROR otherwise |
| Driver.IST8308.Reset | src/drivers/magnetometer/isentek/ist8308/IST8308.cpp:82-88 | always returns true, sets the state to RESET and requests ScheduleClear then ScheduleNow |
| Driver.IST8308.Init | src/drivers/magnetometer/isentek/ist8308/IST8308.cpp:62-70 | succeeds iff the bus attaches and the identity matches, then behaves as Reset. On failure the state and the schedule log are unchanged |
| Driver.IST8308.RequestStop | src/drivers/magnetometer/isentek/ist8308/IST8308.cpp:75-77 | one pass of the stop loop: unless already STOPPED, the state becomes REQUEST_STOP and ScheduleNow is requested. A STOPPED driver is left alone |
| Driver.IST8308.RunReset | src/drivers/magnetometer/isentek/ist8308/IST8308.cpp:114-120 | sets SRST in CNTL3, records the reset time and moves to WAIT_FOR_RESET with a 50 ms delay. Nothing else changes |
| Driver.IST8308.RunWaitForReset | src/drivers/magnetometer/isentek/ist8308/IST8308.cpp:122-145 | goes to CONFIGURE (scheduled now) iff WAI equals the device id and SRST is clear. Otherwise it goes to RESET (scheduled now) iff more than 100 ms passed since the reset. Otherwise it stays and polls again after 50 ms |
| Driver.IST8308.RunConfigure | src/drivers/magnetometer/isentek/ist8308/IST8308.cpp:147-159 | success of the pass moves to READ with a 20 ms interval. Failure stays in CONFIGURE with a 50 ms delay |
| Driver.IST8308.HealthCheck | src/drivers/magnetometer/isentek/ist8308/IST8308.cpp:196-205 | checks the entry at the cursor. A pass advances the cursor modulo the table size and records the sample time. A failure corrects the register, counts it, enters CONFIGURE and schedules now |
| Driver.IST8308.RunRead | src/drivers/magnetometer/isentek/ist8308/IST8308.cpp:161-209 | counts a failed transfer and publishes a sample iff the gate holds. A health check runs iff the transfer failed or more than 100 ms passed since the last check. Without one, the state stays READ |
| Driver.IST8308.Run | src/drivers/magnetometer/isentek/ist8308/IST8308.cpp:111-220 | performs exactly the current state's step. REQUEST_STOP clears the schedule and stops. STOPPED changes nothing. The cursor always stays below the table size |

## Left out

- `Stop()`: the busy-wait loop, the atomic load/store of `_state` from another context and `px4_usleep` are not modelled. One pass of the loop body is `RequestStop`; the REQUEST_STOP → STOPPED step is in `Run`.
- Concurrency: `_state` is a plain field. The scheduler guarantees that at most one `Run` is in flight; the model relies on that and does not represent it.
- The I2C transport and `I2C::init`:
  - Register reads and writes are register-file accesses that always succeed. The source ignores their transfer results too.
  - The framework's `I2C::init` is modelled as a "bus attached" flag followed by `Probe`. Its code is not part of this model.
- The READ block transfer is a boolean outcome:
  - On success the buffer holds the register file at STAT and the six addresses after it (modulo 256).
  - On failure it is the zero-initialised buffer, so no sample is published from it.
  - Partially filled buffers are not modelled.
- Time: one clock reading per `Run` call. The source reads the clock more than once within a step, so the sample time and the elapsed-time test use slightly different readings.
- Sensor hardware: the sensor's own behaviour (SRST clearing itself after the power-on reset, new samples arriving) is not modelled. The register file changes only through the driver's writes or through assignments made between calls.
- Scheduling: each scheduler call is an entry in `requests`. The work queue itself is not modelled.
- Floating point: the `float` conversion of the axes, `set_scale(1.f / 6.6f * 0.01f)`, `set_temperature(NAN)` and `_px4_mag.update` are not modelled. A publish is a `MagSample` with the integer axis values.
- Diagnostics: the `_transfer_perf` timer, `PrintInfo`, the log messages and the constructor/destructor wiring to framework classes are not modelled. The two counters are unbounded naturals.
- The header: it is not part of this model, so the initial field values (state STOPPED, zero timestamps, cursor and counters) and the default `notify = false` of `RegisterCheck`, used by `Configure`, are assumptions about it.
- Decode.Combine: the conversion of the shifted word to `int16_t` is implementation-defined in C++ before C++20 and modular from C++20 on. It is modelled as two's complement.
