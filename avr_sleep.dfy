/**
 * The `sleep::AVR_sleep` controller over a simulated ATmega328P.  `Mcu` is
 * the register file the controller drives; each of its methods is one
 * register operation or avr-libc macro and appends the step it performs to
 * `trace`.  `AvrSleep` is the controller with its four fields; its
 * `GoToSleep` is proved to perform exactly `Protocol` and to leave the
 * registers as `Run` says.
 */
module AvrSleepController {
  import opened PowerModes
  import opened SleepProtocol

  /**
   * The mode setSleepMode hands to set_sleep_mode.  On the Arduino, Timer 2
   * cannot run asynchronously, so the two modes that need it are replaced
   * by the nearest mode that does not; elsewhere the request is used as is.
   */
  function SelectedMode(arduino: bool, requested: SleepMode): (selected: SleepMode)
    ensures arduino ==> selected != PowerSave && selected != ExtendedStandby
    ensures selected == requested <==> !(arduino && (requested == PowerSave || requested == ExtendedStandby))
    ensures arduino && requested == PowerSave ==> selected == PowerDown
    ensures arduino && requested == ExtendedStandby ==> selected == Standby
  {
    if arduino && requested == PowerSave then PowerDown
    else if arduino && requested == ExtendedStandby then Standby
    else requested
  }

  /**
   * The ATmega328P the controller drives: its registers, and the log of the
   * steps performed on it.  Each method is one register operation or
   * avr-libc macro.
   */
  class Mcu {
    var regs: Regs
    var trace: seq<Event>

    constructor(r: Regs)
      ensures regs == r && trace == []
    {
      regs := r;
      trace := [];
    }

    /** set_sleep_mode: the SM2:0 bits of SMCR. */
    method SelectSleepMode(m: SleepMode)
      modifies this`regs
      ensures regs == old(regs).(mode := m)
    {
      regs := regs.(mode := m);
    }

    /** Read PRR to keep a copy. */
    method SnapshotPrr() returns (v: bv8)
      modifies this`trace
      ensures v == regs.prr && trace == old(trace) + [SavePrr]
    {
      v := regs.prr;
      trace := trace + [SavePrr];
    }

    /** PRR = v. */
    method OverwritePrr(v: bv8)
      modifies this
      ensures regs == old(regs).(prr := v) && trace == old(trace) + [WritePrr(v)]
    {
      regs := regs.(prr := v);
      trace := trace + [WritePrr(v)];
    }

    /** ACSR |= (1 << ACD). */
    method SetAcd()
      modifies this
      ensures regs == old(regs).(acsr := old(regs).acsr | AcdMask)
      ensures trace == old(trace) + [DisableComparator]
    {
      regs := regs.(acsr := regs.acsr | AcdMask);
      trace := trace + [DisableComparator];
    }

    /** wdt_reset(): restarts the watchdog count, which is not modelled. */
    method ResetWatchdog()
      modifies this`trace
      ensures trace == old(trace) + [WdtReset]
    {
      trace := trace + [WdtReset];
    }

    /** MCUSR &= (1 << WDRF): every bit but WDRF is cleared. */
    method KeepOnlyWdrf()
      modifies this
      ensures regs == old(regs).(mcusr := old(regs).mcusr & WdrfMask)
      ensures trace == old(trace) + [KeepWdrf]
    {
      regs := regs.(mcusr := regs.mcusr & WdrfMask);
      trace := trace + [KeepWdrf];
    }

    /** wdt_disable(). */
    method StopWatchdog()
      modifies this
      ensures regs == old(regs).(wdtEnabled := false) && trace == old(trace) + [WdtDisable]
    {
      regs := regs.(wdtEnabled := false);
      trace := trace + [WdtDisable];
    }

    /** A call of the attached pre-sleep function, whose body is not modelled. */
    method CallPreSleep(h: HookId)
      modifies this`trace
      ensures trace == old(trace) + [PreHook(h)]
    {
      trace := trace + [PreHook(h)];
    }

    /** Read SREG to keep a copy. */
    method SnapshotSreg() returns (v: bv8)
      modifies this`trace
      ensures v == regs.sreg && trace == old(trace) + [SaveSreg]
    {
      v := regs.sreg;
      trace := trace + [SaveSreg];
    }

    /** cli(): clear the global interrupt flag. */
    method ClearInterrupts()
      modifies this
      ensures regs == old(regs).(sreg := old(regs).sreg & !InterruptFlag)
      ensures trace == old(trace) + [Cli]
    {
      regs := regs.(sreg := regs.sreg & !InterruptFlag);
      trace := trace + [Cli];
    }

    /** sleep_enable(): set SE. */
    method EnableSleep()
      modifies this
      ensures regs == old(regs).(se := true) && trace == old(trace) + [SleepEnable]
    {
      regs := regs.(se := true);
      trace := trace + [SleepEnable];
    }

    /** sleep_bod_disable(): the timed BOD disable sequence. */
    method DisableBod()
      modifies this
      ensures regs == old(regs).(bodDisabled := true) && trace == old(trace) + [BodDisable]
    {
      regs := regs.(bodDisabled := true);
      trace := trace + [BodDisable];
    }

    /** sei(): set the global interrupt flag. */
    method SetInterrupts()
      modifies this
      ensures regs == old(regs).(sreg := old(regs).sreg | InterruptFlag)
      ensures trace == old(trace) + [Sei]
    {
      regs := regs.(sreg := regs.sreg | InterruptFlag);
      trace := trace + [Sei];
    }

    /** sleep_cpu(), returning after an interrupt: no modelled register changes. */
    method Sleep()
      modifies this`trace
      ensures trace == old(trace) + [SleepCpu]
    {
      trace := trace + [SleepCpu];
    }

    /** sleep_disable(): clear SE. */
    method DisableSleep()
      modifies this
      ensures regs == old(regs).(se := false) && trace == old(trace) + [SleepDisable]
    {
      regs := regs.(se := false);
      trace := trace + [SleepDisable];
    }

    /** PRR = copyPRR. */
    method RestorePrrFrom(saved: bv8)
      modifies this
      ensures regs == old(regs).(prr := saved) && trace == old(trace) + [RestorePrr]
    {
      regs := regs.(prr := saved);
      trace := trace + [RestorePrr];
    }

    /** SREG = oldSREG. */
    method RestoreSregFrom(saved: bv8)
      modifies this
      ensures regs == old(regs).(sreg := saved) && trace == old(trace) + [RestoreSreg]
    {
      regs := regs.(sreg := saved);
      trace := trace + [RestoreSreg];
    }

    /** A call of the attached after-wake function, whose body is not modelled. */
    method CallAfterWake(h: HookId)
      modifies this`trace
      ensures trace == old(trace) + [PostHook(h)]
    {
      trace := trace + [PostHook(h)];
    }
  }

  /** Regrouping a log that grows piece by piece. */
  lemma Regroup(t0: seq<Event>, a: seq<Event>, b: seq<Event>)
    ensures t0 + a + b == t0 + (a + b)
  {
  }

  /** The `AVR_sleep` controller: the two hooks, the PRR copy and the power-off flags. */
  class AvrSleep {
    /** Whether the code is built with ARDUINO defined. */
    const arduino: bool
    var ps: Option<HookId>
    var aw: Option<HookId>
    var copyPRR: bv8
    var powerBits: PowerMode

    /** No hooks, an empty PRR copy, nothing to power off. */
    constructor(arduino: bool)
      ensures this.arduino == arduino
      ensures ps == None && aw == None && copyPRR == 0 && powerBits == PmNone
    {
      this.arduino := arduino;
      ps := None;
      aw := None;
      copyPRR := 0;
      powerBits := PmNone;
    }

    /**
     * Record the power-off flags verbatim and select the sleep mode, with
     * the Arduino substitution.  No other register and no hook changes.
     */
    method SetSleepMode(mcu: Mcu, sleepMode: SleepMode, powerOffBits: PowerMode)
      modifies this`powerBits, mcu`regs
      ensures powerBits == powerOffBits
      ensures mcu.regs == old(mcu.regs).(mode := SelectedMode(arduino, sleepMode))
      ensures mcu.trace == old(mcu.trace)
      ensures ps == old(ps) && aw == old(aw) && copyPRR == old(copyPRR)
    {
      var mode := sleepMode;
      powerBits := powerOffBits;
      if arduino {
        if mode == PowerSave {
          mode := PowerDown;
        } else {
          if mode == ExtendedStandby {
            mode := Standby;
          }
        }
      }
      mcu.SelectSleepMode(mode);
    }

    /** Attach the pre-sleep function (None is no callback); the last one attached wins. */
    method AttachPreSleep(psfn: Option<HookId>)
      modifies this`ps
      ensures ps == psfn
      ensures aw == old(aw) && copyPRR == old(copyPRR) && powerBits == old(powerBits)
    {
      ps := psfn;
    }

    /** Attach the after-wake function (None is no callback); the last one attached wins. */
    method AttachWakeUp(awfn: Option<HookId>)
      modifies this`aw
      ensures aw == awfn
      ensures ps == old(ps) && copyPRR == old(copyPRR) && powerBits == old(powerBits)
    {
      aw := awfn;
    }

    /** The analog comparator: ACD is set exactly when bit 8 of powerBits is. */
    method ComparatorOff(mcu: Mcu)
      modifies mcu
      ensures mcu.trace == old(mcu.trace) + When(HasFlag(powerBits, PmAcOff), [DisableComparator])
      ensures mcu.regs == old(mcu.regs).(acsr := if HasFlag(powerBits, PmAcOff)
                                                 then old(mcu.regs).acsr | AcdMask else old(mcu.regs).acsr)
    {
      if powerBits & (1 << PmAcOff) != 0 {
        mcu.SetAcd();
      } else {
        assert mcu.trace + [] == mcu.trace;
      }
    }

    /** The watchdog: reset, MCUSR masked and stopped exactly when bit 10 of powerBits is set. */
    method WatchdogOff(mcu: Mcu)
      modifies mcu
      ensures mcu.trace == old(mcu.trace) + When(HasFlag(powerBits, PmWdtOff), [WdtReset, KeepWdrf, WdtDisable])
      ensures mcu.regs == old(mcu.regs).(
                mcusr := if HasFlag(powerBits, PmWdtOff) then old(mcu.regs).mcusr & WdrfMask else old(mcu.regs).mcusr,
                wdtEnabled := old(mcu.regs).wdtEnabled && !HasFlag(powerBits, PmWdtOff))
    {
      if powerBits & (1 << PmWdtOff) != 0 {
        mcu.ResetWatchdog();
        mcu.KeepOnlyWdrf();
        mcu.StopWatchdog();
        assert mcu.trace == old(mcu.trace) + [WdtReset, KeepWdrf, WdtDisable];
      } else {
        assert mcu.trace + [] == mcu.trace;
      }
    }

    /**
     * Save PRR into copyPRR, overwrite PRR with the low byte of powerBits,
     * then disable the comparator (bit 8) and stop the watchdog (bit 10)
     * when asked.
     */
    method PowerOffPeripherals(mcu: Mcu)
      modifies this`copyPRR, mcu
      ensures mcu.trace == old(mcu.trace) + PowerOff(powerBits)
      ensures mcu.regs == ShutDown(old(mcu.regs), powerBits)
      ensures copyPRR == old(mcu.regs).prr
    {
      ghost var t0 := mcu.trace;
      ghost var v := PrrPart(powerBits);
      copyPRR := mcu.SnapshotPrr();
      mcu.OverwritePrr((powerBits & 0x00FF) as bv8);
      assert mcu.trace == t0 + [SavePrr, WritePrr(v)];
      ComparatorOff(mcu);
      Regroup(t0, [SavePrr, WritePrr(v)], When(HasFlag(powerBits, PmAcOff), [DisableComparator]));
      WatchdogOff(mcu);
      Regroup(t0, [SavePrr, WritePrr(v)] + When(HasFlag(powerBits, PmAcOff), [DisableComparator]),
              When(HasFlag(powerBits, PmWdtOff), [WdtReset, KeepWdrf, WdtDisable]));
    }

    /** Call the pre-sleep function, if one is attached. */
    method PreSleepHook(mcu: Mcu)
      modifies mcu`trace
      ensures mcu.trace == old(mcu.trace) + HookCall(ps, true)
    {
      if ps.Some? {
        mcu.CallPreSleep(ps.value);
      } else {
        assert mcu.trace + [] == mcu.trace;
      }
    }

    /** oldSREG = SREG, cli and sleep_enable; returns the saved SREG. */
    method SaveAndArm(mcu: Mcu) returns (oldSREG: bv8)
      modifies mcu
      ensures mcu.trace == old(mcu.trace) + [SaveSreg, Cli, SleepEnable]
      ensures oldSREG == old(mcu.regs).sreg
      ensures mcu.regs == old(mcu.regs).(sreg := old(mcu.regs).sreg & !InterruptFlag, se := true)
    {
      oldSREG := mcu.SnapshotSreg();
      mcu.ClearInterrupts();
      mcu.EnableSleep();
    }

    /** The BOD disable, exactly when bit 9 of powerBits is set. */
    method BodOff(mcu: Mcu)
      modifies mcu
      ensures mcu.trace == old(mcu.trace) + When(HasFlag(powerBits, PmBodOff), [BodDisable])
      ensures mcu.regs == old(mcu.regs).(bodDisabled := old(mcu.regs).bodDisabled || HasFlag(powerBits, PmBodOff))
    {
      if powerBits & (1 << PmBodOff) != 0 {
        mcu.DisableBod();
      } else {
        assert mcu.trace + [] == mcu.trace;
      }
    }

    /** sleep_cpu, then on wake sleep_disable and the PRR and SREG restores. */
    method SleepAndRestore(mcu: Mcu, oldSREG: bv8)
      modifies mcu
      ensures mcu.trace == old(mcu.trace) + [SleepCpu, SleepDisable, RestorePrr, RestoreSreg]
      ensures mcu.regs == old(mcu.regs).(se := false, prr := copyPRR, sreg := oldSREG)
    {
      mcu.Sleep();
      mcu.DisableSleep();
      mcu.RestorePrrFrom(copyPRR);
      mcu.RestoreSregFrom(oldSREG);
    }

    /** Call the after-wake function, if one is attached. */
    method AfterWakeHook(mcu: Mcu)
      modifies mcu`trace
      ensures mcu.trace == old(mcu.trace) + HookCall(aw, false)
    {
      if aw.Some? {
        mcu.CallAfterWake(aw.value);
      } else {
        assert mcu.trace + [] == mcu.trace;
      }
    }

    /**
     * Power off what powerBits asks for, call the pre-sleep hook, sleep with
     * interrupts enabled and, on the interrupt that wakes the processor,
     * restore PRR and SREG and call the after-wake hook.
     */
    method GoToSleep(mcu: Mcu)
      modifies this`copyPRR, mcu
      ensures mcu.trace == old(mcu.trace) + Protocol(powerBits, ps, aw)
      ensures var m := Run(Machine(old(mcu.regs), old(copyPRR), 0), Protocol(powerBits, ps, aw));
              mcu.regs == m.regs && copyPRR == m.copyPrr
      ensures copyPRR == old(mcu.regs).prr
      ensures mcu.regs.prr == old(mcu.regs).prr && mcu.regs.sreg == old(mcu.regs).sreg
      ensures !mcu.regs.se && mcu.regs.mode == old(mcu.regs).mode
      ensures mcu.regs.acsr == if HasFlag(powerBits, PmAcOff) then old(mcu.regs).acsr | AcdMask else old(mcu.regs).acsr
      ensures mcu.regs.mcusr == if HasFlag(powerBits, PmWdtOff) then old(mcu.regs).mcusr & WdrfMask else old(mcu.regs).mcusr
      ensures mcu.regs.wdtEnabled == (old(mcu.regs).wdtEnabled && !HasFlag(powerBits, PmWdtOff))
      ensures mcu.regs.bodDisabled == (old(mcu.regs).bodDisabled || HasFlag(powerBits, PmBodOff))
      ensures ps == old(ps) && aw == old(aw) && powerBits == old(powerBits)
    {
      ghost var t0 := mcu.trace;
      ghost var m := Machine(mcu.regs, copyPRR, 0);
      ghost var bits := powerBits;
      ghost var bod := HasFlag(bits, PmBodOff);

      PowerOffPeripherals(mcu);

      PreSleepHook(mcu);
      Regroup(t0, PowerOff(bits), HookCall(ps, true));
      ghost var x1 := PowerOff(bits) + HookCall(ps, true);

      var oldSREG := SaveAndArm(mcu);
      Regroup(t0, x1, [SaveSreg, Cli, SleepEnable]);
      ghost var x2 := x1 + [SaveSreg, Cli, SleepEnable];

      // The BOD disable must come right before the sleep instruction.
      BodOff(mcu);
      Regroup(t0, x2, When(bod, [BodDisable]));
      ghost var x3 := x2 + When(bod, [BodDisable]);

      mcu.SetInterrupts();
      Regroup(t0, x3, [Sei]);

      SleepAndRestore(mcu, oldSREG);
      Regroup(t0, BeforeSleep(bits, ps), [SleepCpu, SleepDisable, RestorePrr, RestoreSreg]);
      ghost var x4 := BeforeSleep(bits, ps) + [SleepCpu, SleepDisable, RestorePrr, RestoreSreg];

      AfterWakeHook(mcu);
      Regroup(t0, x4, HookCall(aw, false));

      RunProtocol(m, bits, ps, aw);
      ProtocolRestoresState(m, bits, ps, aw);
      ProtocolOneWayShutdowns(m, bits, ps, aw);
    }
  }

  // Uses of the controller, each from a fresh controller and register file.

  /**
   * Timer 1 and the analog comparator off, in power-down, with no hooks:
   * PRR is 0x08 while asleep and restored after, the comparator stays off.
   */
  method TimerOneAndComparatorOff(r: Regs) returns (t: seq<Event>, after: Regs)
    ensures t == [SavePrr, WritePrr(0x08), DisableComparator, SaveSreg, Cli, SleepEnable,
                  Sei, SleepCpu, SleepDisable, RestorePrr, RestoreSreg]
    ensures after == r.(mode := PowerDown, se := false, acsr := r.acsr | AcdMask)
  {
    var mcu := new Mcu(r);
    var ctl := new AvrSleep(false);
    ctl.SetSleepMode(mcu, PowerDown, PmTimer1Off | (1 << PmAcOff));
    ctl.GoToSleep(mcu);
    t, after := mcu.trace, mcu.regs;
    assert PowerOff(PmTimer1Off | (1 << PmAcOff)) == [SavePrr, WritePrr(0x08), DisableComparator];
  }

  /**
   * Everything off on the Arduino, asking for power-save, with both hooks:
   * power-down is selected instead, and every step of the protocol happens.
   */
  method ArduinoEverythingOff(r: Regs, pre: HookId, post: HookId) returns (t: seq<Event>, after: Regs)
    ensures t == [SavePrr, WritePrr(0xEF), DisableComparator, WdtReset, KeepWdrf, WdtDisable,
                  PreHook(pre), SaveSreg, Cli, SleepEnable, BodDisable, Sei, SleepCpu,
                  SleepDisable, RestorePrr, RestoreSreg, PostHook(post)]
    ensures after == r.(mode := PowerDown, se := false, acsr := r.acsr | AcdMask,
                        mcusr := r.mcusr & WdrfMask, wdtEnabled := false, bodDisabled := true)
  {
    var mcu := new Mcu(r);
    var ctl := new AvrSleep(true);
    ctl.AttachPreSleep(Some(pre));
    ctl.AttachWakeUp(Some(post));
    ctl.SetSleepMode(mcu, PowerSave, PmEverythingOff);
    ctl.GoToSleep(mcu);
    t, after := mcu.trace, mcu.regs;
    EverythingOffIsPrrOffAndHighFlags();
    assert PowerOff(PmEverythingOff) == [SavePrr, WritePrr(0xEF), DisableComparator, WdtReset, KeepWdrf, WdtDisable];
  }

  /**
   * PM_AC_OFF passed as a mask is the value 8: it powers off Timer 1
   * through PRR and leaves the comparator running.
   */
  method AcOffAsMask(r: Regs) returns (t: seq<Event>, after: Regs)
    ensures t == [SavePrr, WritePrr(0x08), SaveSreg, Cli, SleepEnable,
                  Sei, SleepCpu, SleepDisable, RestorePrr, RestoreSreg]
    ensures DisableComparator !in t
    ensures after == r.(mode := Idle, se := false)
  {
    var mcu := new Mcu(r);
    var ctl := new AvrSleep(false);
    ctl.SetSleepMode(mcu, Idle, PmAcOff);
    ctl.GoToSleep(mcu);
    t, after := mcu.trace, mcu.regs;
    assert PowerOff(PmAcOff) == [SavePrr, WritePrr(0x08)];
  }

  /** Attaching a second pre-sleep function replaces the first: only the last one runs. */
  method LastHookWins(r: Regs, first: HookId, second: HookId) returns (t: seq<Event>, after: Regs)
    requires first != second
    ensures t == [SavePrr, WritePrr(0), PreHook(second), SaveSreg, Cli, SleepEnable,
                  Sei, SleepCpu, SleepDisable, RestorePrr, RestoreSreg]
    ensures PreHook(second) in t && PreHook(first) !in t
    ensures forall h: HookId :: PostHook(h) !in t
    ensures after == r.(se := false)
  {
    var mcu := new Mcu(r);
    var ctl := new AvrSleep(false);
    ctl.AttachPreSleep(Some(first));
    ctl.AttachPreSleep(Some(second));
    ctl.GoToSleep(mcu);
    t, after := mcu.trace, mcu.regs;
    ProtocolHooks(PmNone, Some(second), None);
  }
}
