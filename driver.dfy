/**
 * The IST8308 magnetometer driver: its register accessors, the register
 * check, the whole-table configuration, the entry points Init, Reset and
 * Probe, and the one-step-per-call state machine Run.
 *
 * The bus is the register file `regs`. Every scheduler call is appended to
 * `requests`, every published sample to `published`. The clock reading and
 * the outcome of the block transfer in the READ state are parameters of Run.
 */
module Driver {
  import opened Registers
  import opened Decode
  import opened Configuration

  /** An `hrt_abstime`: an unsigned 64-bit count of microseconds. */
  const TIME_MODULUS: int := 0x1_0000_0000_0000_0000
  type Time = t: int | 0 <= t < TIME_MODULUS

  /** `hrt_elapsed_time`: the unsigned 64-bit difference between now and an earlier reading. */
  function Elapsed(now: Time, since: Time): (d: Time)
    ensures now >= since ==> d == now - since
    ensures now < since ==> d == TIME_MODULUS - (since - now)
  {
    (now - since) % TIME_MODULUS
  }

  const MS: int := 1000
  /** Power-on-reset wait, and the retry delay of a failed configuration. */
  const RESET_POLL_DELAY: int := 50 * MS
  /** Reset budget before a new soft reset is issued (strictly exceeded). */
  const RESET_TIMEOUT: int := 100 * MS
  /** Sampling period in the READ state (50 Hz). */
  const READ_INTERVAL: int := 20 * MS
  /** Longest time between two incremental health checks (strictly exceeded). */
  const CHECK_INTERVAL: int := 100 * MS

  /**
   * The reset budget is strict: with a clock that has not wrapped, a retry is
   * due iff more than 100 ms have passed since the reset, so not at exactly 100 ms.
   */
  lemma ResetTimeoutStrict(now: Time, resetAt: Time)
    requires resetAt <= now
    ensures Elapsed(now, resetAt) > RESET_TIMEOUT <==> now > resetAt + 100 * MS
    ensures now == resetAt + 100 * MS ==> !(Elapsed(now, resetAt) > RESET_TIMEOUT)
  {
  }

  const PX4_OK: int := 0
  const PX4_ERROR: int := -1

  datatype State = RESET | WAIT_FOR_RESET | CONFIGURE | READ | REQUEST_STOP | STOPPED

  /** One call into the work-queue scheduler. */
  datatype ScheduleRequest =
    | ScheduleNow
    | ScheduleDelayed(delay: int)
    | ScheduleOnInterval(interval: int, delay: int)
    | ScheduleClear

  /** The constants of the header: identity, register addresses and bit masks. */
  datatype Layout = Layout(deviceId: bv8, wai: Reg, cntl3: Reg, stat: Reg, srst: bv8, drdy: bv8)

  /** The status byte and data bytes auto-incremented from the STAT register. */
  function BlockRead(regs: RegisterFile, start: Reg): TransferBuffer
  {
    TransferBuffer(regs[start],
                   regs[(start + 1) % 256], regs[(start + 2) % 256],
                   regs[(start + 3) % 256], regs[(start + 4) % 256],
                   regs[(start + 5) % 256], regs[(start + 6) % 256])
  }

  /**
   * The worked READ example: with STAT = 1 and the data registers after it
   * holding (XL, XH) = (0x00, 0x01), (YL, YH) = (0xFF, 0xFF) and
   * (ZL, ZH) = (0x00, 0x80), the gate holds and the sample decoded from the
   * block read has the axes 256, -1 and -32768.
   */
  lemma ReadSampleExample(regs: RegisterFile, stat: Reg, drdy: bv8, t: nat)
    requires drdy != 0 && regs[stat] == 0x01
    requires regs[(stat + 1) % 256] == 0x00 && regs[(stat + 2) % 256] == 0x01
    requires regs[(stat + 3) % 256] == 0xFF && regs[(stat + 4) % 256] == 0xFF
    requires regs[(stat + 5) % 256] == 0x00 && regs[(stat + 6) % 256] == 0x80
    ensures DataReady(BlockRead(regs, stat).stat, drdy)
    ensures DecodeSample(t, BlockRead(regs, stat)) == MagSample(t, 256, -1, -32768)
  {
  }

  /**
   * Nothing is lost between the bus and the published sample: two register
   * files whose block reads decode to the same sample hold the same six data
   * bytes after STAT.
   */
  lemma {:induction false} ReadSampleInjective(regs: RegisterFile, regs': RegisterFile, stat: Reg, t: nat)
    requires DecodeSample(t, BlockRead(regs, stat)) == DecodeSample(t, BlockRead(regs', stat))
    ensures regs[(stat + 1) % 256] == regs'[(stat + 1) % 256] && regs[(stat + 2) % 256] == regs'[(stat + 2) % 256]
    ensures regs[(stat + 3) % 256] == regs'[(stat + 3) % 256] && regs[(stat + 4) % 256] == regs'[(stat + 4) % 256]
    ensures regs[(stat + 5) % 256] == regs'[(stat + 5) % 256] && regs[(stat + 6) % 256] == regs'[(stat + 6) % 256]
  {
    var b, b' := BlockRead(regs, stat), BlockRead(regs', stat);
    CombineInjective(b.dataXH, b.dataXL, b'.dataXH, b'.dataXL);
    CombineInjective(b.dataYH, b.dataYL, b'.dataYH, b'.dataYL);
    CombineInjective(b.dataZH, b.dataZL, b'.dataZH, b'.dataZL);
  }

  class IST8308 {
    const layout: Layout
    const registerCfg: seq<RegisterConfig>

    var regs: RegisterFile
    var state: State
    var resetTimestamp: Time
    var lastConfigCheckTimestamp: Time
    var checkedRegister: nat
    var badRegisterCount: nat
    var badTransferCount: nat
    var requests: seq<ScheduleRequest>
    var published: seq<MagSample>

    /** The table is nonempty and the health-check cursor indexes it. */
    ghost predicate Valid()
      reads this
    {
      |registerCfg| > 0 && checkedRegister < |registerCfg|
    }

    constructor (layout: Layout, registerCfg: seq<RegisterConfig>, regs: RegisterFile)
      requires |registerCfg| > 0
      ensures Valid()
      ensures this.layout == layout && this.registerCfg == registerCfg && this.regs == regs
      ensures state == STOPPED && resetTimestamp == 0 && lastConfigCheckTimestamp == 0
      ensures checkedRegister == 0 && badRegisterCount == 0 && badTransferCount == 0
      ensures requests == [] && published == []
    {
      this.layout := layout;
      this.registerCfg := registerCfg;
      this.regs := regs;
      state := STOPPED;
      resetTimestamp := 0;
      lastConfigCheckTimestamp := 0;
      checkedRegister := 0;
      badRegisterCount := 0;
      badTransferCount := 0;
      requests := [];
      published := [];
    }

    /** Reads one register; the bus is not changed by a read. */
    method RegisterRead(reg: Reg) returns (v: bv8)
      ensures v == regs[reg]
    {
      v := regs[reg];
    }

    /** Writes one register and no other. */
    method RegisterWrite(reg: Reg, value: bv8)
      modifies this`regs
      ensures regs == old(regs)[reg := value]
    {
      regs := regs[reg := value];
    }

    /** Read-modify-write: stores `(orig | setbits) & ~clearbits` into reg and touches nothing else. */
    method RegisterSetAndClearBits(reg: Reg, setbits: bv8, clearbits: bv8)
      modifies this`regs
      ensures regs == old(regs)[reg := SetAndClear(old(regs)[reg], setbits, clearbits)]
    {
      var origVal := RegisterRead(reg);
      var val := origVal;
      if setbits != 0 {
        val := val | setbits;
      }
      if clearbits != 0 {
        val := val & !clearbits;
      }
      assert val == SetAndClear(origVal, setbits, clearbits);
      RegisterWrite(reg, val);
    }

    /** Sets bits of one register: the clear set is empty. */
    method RegisterSetBits(reg: Reg, setbits: bv8)
      modifies this`regs
      ensures regs == old(regs)[reg := old(regs)[reg] | setbits]
    {
      RegisterSetAndClearBits(reg, setbits, 0);
    }

    /** Clears bits of one register: the set set is empty. */
    method RegisterClearBits(reg: Reg, clearbits: bv8)
      modifies this`regs
      ensures regs == old(regs)[reg := old(regs)[reg] & !clearbits]
    {
      RegisterSetAndClearBits(reg, 0, clearbits);
    }

    /**
     * Verifies one table entry. On failure it corrects the register with one
     * set-and-clear and, when notify holds, counts a bad register.
     */
    method RegisterCheck(e: RegisterConfig, notify: bool) returns (success: bool)
      modifies this`regs, this`badRegisterCount
      ensures success == CheckPasses(old(regs)[e.reg], e)
      ensures regs == if success then old(regs)
                      else old(regs)[e.reg := SetAndClear(old(regs)[e.reg], e.setBits, e.clearBits)]
      ensures badRegisterCount == old(badRegisterCount) + (if !success && notify then 1 else 0)
    {
      success := true;
      var regValue := RegisterRead(e.reg);
      if e.setBits != 0 && regValue & e.setBits == 0 {
        success := false;
      }
      if e.clearBits != 0 && regValue & e.clearBits != 0 {
        success := false;
      }
      assert success == CheckPasses(regValue, e);
      if !success {
        RegisterSetAndClearBits(e.reg, e.setBits, e.clearBits);
        if notify {
          badRegisterCount := badRegisterCount + 1;
        }
      }
    }

    /**
     * Checks every table entry in order, without notification and without
     * stopping at a failure; succeeds iff every entry passed before correction.
     */
    method Configure() returns (success: bool)
      modifies this`regs, this`badRegisterCount
      ensures badRegisterCount == old(badRegisterCount)
      ensures Pass(regs, success) == ConfigurePass(old(regs), registerCfg)
      ensures success <==> AllPass(old(regs), registerCfg, |registerCfg|)
      ensures success ==> regs == old(regs)
    {
      success := true;
      var i := 0;
      while i < |registerCfg|
        invariant 0 <= i <= |registerCfg|
        invariant Pass(regs, success) == ConfigurePrefix(old(regs), registerCfg, i)
        invariant badRegisterCount == old(badRegisterCount)
      {
        var ok := RegisterCheck(registerCfg[i], false);
        if !ok {
          success := false;
        }
        i := i + 1;
      }
      ConfigureOkIff(old(regs), registerCfg, |registerCfg|);
    }

    /** The identity check: PX4_OK iff the who-am-i register holds the device id. */
    method Probe() returns (r: int)
      ensures r == PX4_OK || r == PX4_ERROR
      ensures r == PX4_OK <==> regs[layout.wai] == layout.deviceId
    {
      var whoami := RegisterRead(layout.wai);
      if whoami != layout.deviceId {
        return PX4_ERROR;
      }
      return PX4_OK;
    }

    /** Restarts the state machine: cancel pending work, enter RESET, run at once. Always succeeds. */
    method Reset() returns (ok: bool)
      requires Valid()
      modifies this`state, this`requests
      ensures Valid() && ok
      ensures state == RESET
      ensures requests == old(requests) + [ScheduleClear, ScheduleNow]
    {
      state := RESET;
      requests := requests + [ScheduleClear];
      requests := requests + [ScheduleNow];
      return true;
    }

    /**
     * Bus initialisation followed by Reset. The framework's bus initialisation
     * succeeds iff the bus attaches and Probe finds the expected identity; on
     * failure nothing is scheduled.
     */
    method Init(busAttached: bool) returns (ok: bool)
      requires Valid()
      modifies this`state, this`requests
      ensures Valid()
      ensures ok <==> busAttached && regs[layout.wai] == layout.deviceId
      ensures ok ==> state == RESET && requests == old(requests) + [ScheduleClear, ScheduleNow]
      ensures !ok ==> state == old(state) && requests == old(requests)
    {
      var initResult := PX4_ERROR;
      if busAttached {
        initResult := Probe();
      }
      if initResult != PX4_OK {
        return false;
      }
      ok := Reset();
    }

    /** One pass of the stop request loop: unless stopped, ask the state machine to stop, at once. */
    method RequestStop()
      requires Valid()
      modifies this`state, this`requests
      ensures Valid()
      ensures old(state) == STOPPED ==> state == STOPPED && requests == old(requests)
      ensures old(state) != STOPPED ==> state == REQUEST_STOP && requests == old(requests) + [ScheduleNow]
    {
      if state != STOPPED {
        state := REQUEST_STOP;
        requests := requests + [ScheduleNow];
      }
    }

    /** The fields no step of the state machine writes unless it says so. */
    twostate predicate Kept(keepRegs: bool, keepReset: bool, keepCheck: bool, keepPublished: bool)
      reads this
    {
      (keepRegs ==> regs == old(regs) && badRegisterCount == old(badRegisterCount)) &&
      (keepReset ==> resetTimestamp == old(resetTimestamp)) &&
      (keepCheck ==> lastConfigCheckTimestamp == old(lastConfigCheckTimestamp) &&
                     checkedRegister == old(checkedRegister)) &&
      (keepPublished ==> published == old(published) && badTransferCount == old(badTransferCount))
    }

    /** RESET: soft reset through SRST, remember when, poll after the power-on-reset time. */
    twostate predicate ResetStep(now: Time)
      reads this
    {
      regs == old(regs)[layout.cntl3 := old(regs)[layout.cntl3] | layout.srst] &&
      badRegisterCount == old(badRegisterCount) &&
      state == WAIT_FOR_RESET && resetTimestamp == now &&
      requests == old(requests) + [ScheduleDelayed(RESET_POLL_DELAY)] &&
      Kept(false, false, true, true)
    }

    /**
     * WAIT_FOR_RESET: configure iff the identity matches and SRST has cleared;
     * otherwise a new reset only once the budget is strictly exceeded, else poll again.
     */
    twostate predicate WaitForResetStep(now: Time)
      reads this
    {
      var done := old(regs)[layout.wai] == layout.deviceId &&
                  old(regs)[layout.cntl3] & layout.srst == 0;
      var expired := Elapsed(now, old(resetTimestamp)) > RESET_TIMEOUT;
      state == (if done then CONFIGURE else if expired then RESET else WAIT_FOR_RESET) &&
      requests == old(requests) + [if done || expired then ScheduleNow else ScheduleDelayed(RESET_POLL_DELAY)] &&
      Kept(true, true, true, true)
    }

    /** CONFIGURE: one full pass; periodic sampling on success, a retry later otherwise. */
    twostate predicate ConfigureStep()
      reads this
    {
      var p := ConfigurePass(old(regs), registerCfg);
      regs == p.regs && badRegisterCount == old(badRegisterCount) &&
      (p.ok <==> AllPass(old(regs), registerCfg, |registerCfg|)) &&
      state == (if p.ok then READ else CONFIGURE) &&
      requests == old(requests) + [if p.ok then ScheduleOnInterval(READ_INTERVAL, READ_INTERVAL)
                                   else ScheduleDelayed(RESET_POLL_DELAY)] &&
      Kept(false, true, true, true)
    }

    /**
     * READ: count a failed transfer, publish when the data-ready gate holds, and
     * check the cursor's entry when the transfer failed or a check is overdue;
     * a passing check advances the cursor, a failing one forces CONFIGURE.
     */
    twostate predicate ReadStep(now: Time, transferOk: bool)
      reads this
      requires old(checkedRegister) < |registerCfg|
    {
      var buffer := if transferOk then BlockRead(old(regs), layout.stat) else EMPTY_BUFFER;
      var due := !transferOk || Elapsed(now, old(lastConfigCheckTimestamp)) > CHECK_INTERVAL;
      var e := registerCfg[old(checkedRegister)];
      var passed := CheckPasses(old(regs)[e.reg], e);
      badTransferCount == old(badTransferCount) + (if transferOk then 0 else 1) &&
      published == old(published) + (if DataReady(buffer.stat, layout.drdy) then [DecodeSample(now, buffer)] else []) &&
      regs == (if due && !passed then old(regs)[e.reg := SetAndClear(old(regs)[e.reg], e.setBits, e.clearBits)]
               else old(regs)) &&
      badRegisterCount == old(badRegisterCount) + (if due && !passed then 1 else 0) &&
      checkedRegister == (if due && passed then NextCursor(old(checkedRegister), |registerCfg|) else old(checkedRegister)) &&
      lastConfigCheckTimestamp == (if due && passed then now else old(lastConfigCheckTimestamp)) &&
      state == (if due && !passed then CONFIGURE else READ) &&
      requests == old(requests) + (if due && !passed then [ScheduleNow] else []) &&
      Kept(false, true, false, false)
    }

    /** REQUEST_STOP: cancel all scheduling and stop. */
    twostate predicate RequestStopStep()
      reads this
    {
      state == STOPPED && requests == old(requests) + [ScheduleClear] && Kept(true, true, true, true)
    }

    /** STOPPED: nothing happens. */
    twostate predicate StoppedStep()
      reads this
    {
      state == STOPPED && requests == old(requests) && Kept(true, true, true, true)
    }

    method RunReset(now: Time)
      requires Valid() && state == RESET
      modifies this
      ensures Valid() && ResetStep(now)
    {
      RegisterSetBits(layout.cntl3, layout.srst);
      resetTimestamp := now;
      state := WAIT_FOR_RESET;
      requests := requests + [ScheduleDelayed(RESET_POLL_DELAY)];
    }

    method RunWaitForReset(now: Time)
      requires Valid() && state == WAIT_FOR_RESET
      modifies this
      ensures Valid() && WaitForResetStep(now)
    {
      var whoami := RegisterRead(layout.wai);
      var done := false;
      if whoami == layout.deviceId {
        var cntl3 := RegisterRead(layout.cntl3);
        done := cntl3 & layout.srst == 0;
      }
      if done {
        state := CONFIGURE;
        requests := requests + [ScheduleNow];
      } else if Elapsed(now, resetTimestamp) > RESET_TIMEOUT {
        state := RESET;
        requests := requests + [ScheduleNow];
      } else {
        requests := requests + [ScheduleDelayed(RESET_POLL_DELAY)];
      }
    }

    method RunConfigure()
      requires Valid() && state == CONFIGURE
      modifies this
      ensures Valid() && ConfigureStep()
    {
      var ok := Configure();
      if ok {
        state := READ;
        requests := requests + [ScheduleOnInterval(READ_INTERVAL, READ_INTERVAL)];
      } else {
        requests := requests + [ScheduleDelayed(RESET_POLL_DELAY)];
      }
    }

    /** The incremental health check of the READ state: one entry, at the cursor. */
    method HealthCheck(timestampSample: Time)
      requires Valid()
      modifies this`regs, this`badRegisterCount, this`lastConfigCheckTimestamp,
               this`checkedRegister, this`state, this`requests
      ensures Valid()
      ensures var e := registerCfg[old(checkedRegister)];
        var passed := CheckPasses(old(regs)[e.reg], e);
        regs == (if passed then old(regs)
                 else old(regs)[e.reg := SetAndClear(old(regs)[e.reg], e.setBits, e.clearBits)]) &&
        badRegisterCount == old(badRegisterCount) + (if passed then 0 else 1) &&
        checkedRegister == (if passed then NextCursor(old(checkedRegister), |registerCfg|) else old(checkedRegister)) &&
        lastConfigCheckTimestamp == (if passed then timestampSample else old(lastConfigCheckTimestamp)) &&
        state == (if passed then old(state) else CONFIGURE) &&
        requests == old(requests) + (if passed then [] else [ScheduleNow])
    {
      var ok := RegisterCheck(registerCfg[checkedRegister], true);
      if ok {
        lastConfigCheckTimestamp := timestampSample;
        checkedRegister := (checkedRegister + 1) % |registerCfg|;
      } else {
        state := CONFIGURE;
        requests := requests + [ScheduleNow];
      }
    }

    method RunRead(now: Time, transferOk: bool)
      requires Valid() && state == READ
      modifies this
      ensures Valid() && ReadStep(now, transferOk)
    {
      var failure := false;
      var timestampSample := now;
      var buffer := EMPTY_BUFFER;
      if transferOk {
        buffer := BlockRead(regs, layout.stat);
      } else {
        badTransferCount := badTransferCount + 1;
        failure := true;
      }
      if DataReady(buffer.stat, layout.drdy) {
        published := published + [DecodeSample(timestampSample, buffer)];
      }
      ghost var sampled := buffer;
      assert sampled == if transferOk then BlockRead(old(regs), layout.stat) else EMPTY_BUFFER;
      if failure || Elapsed(now, lastConfigCheckTimestamp) > CHECK_INTERVAL {
        HealthCheck(timestampSample);
      }
      assert badTransferCount == old(badTransferCount) + (if transferOk then 0 else 1);
      assert published == old(published) + (if DataReady(sampled.stat, layout.drdy) then [DecodeSample(now, sampled)] else []);
    }

    /**
     * One step of the state machine at clock reading `now`: exactly the
     * current state's step. In the READ state, `transferOk` is the outcome of
     * the block transfer of STAT and the data bytes.
     */
    method Run(now: Time, transferOk: bool)
      requires Valid()
      modifies this
      ensures Valid()
      ensures old(state) == RESET ==> ResetStep(now)
      ensures old(state) == WAIT_FOR_RESET ==> WaitForResetStep(now)
      ensures old(state) == CONFIGURE ==> ConfigureStep()
      ensures old(state) == READ ==> ReadStep(now, transferOk)
      ensures old(state) == REQUEST_STOP ==> RequestStopStep()
      ensures old(state) == STOPPED ==> StoppedStep()
    {
      match state
      case RESET => RunReset(now);
      case WAIT_FOR_RESET => RunWaitForReset(now);
      case CONFIGURE => RunConfigure();
      case READ => RunRead(now, transferOk);
      case REQUEST_STOP =>
        requests := requests + [ScheduleClear];
        state := STOPPED;
      case STOPPED =>
    }
  }
}
