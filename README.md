# AVR_sleep in Dafny

A model of the `sleep::AVR_sleep` controller for the ATmega328P, with proofs
about it. The controller selects a sleep mode and a set of peripherals to power
off. It then puts the processor to sleep:

- it overwrites the Power Reduction Register (PRR) and shuts down the analog
  comparator and the watchdog;
- it calls an optional pre-sleep hook;
- it saves SREG, disables interrupts, arms the sleep, optionally disables the
  brown-out detector (BOD), re-enables interrupts and sleeps;
- on the interrupt that wakes the processor, it disarms, restores PRR and SREG
  and calls an optional after-wake hook.

The project has three modules.

- `PowerModes` (`power_modes.dfy`) holds the enumerations of `AVR_sleep.h`:
  - the six sleep modes, as a datatype;
  - the 16-bit power-off flags (`powerMode_t`, a `bv16`). The low byte of a
    power-off value is written verbatim to PRR. The comparator, BOD and
    watchdog flags are the BIT POSITIONS 8, 9 and 10, not masks.

  Lemmas state what the constants are: distinct single PRR bits, the union
  `PM_PRR_OFF`, high-byte flags that can never reach PRR, and `PM_AC_OFF`
  having the same value as `PM_TIMER1_OFF`.
- `SleepProtocol` (`sleep_protocol.dfy`) is the pure semantics of `goToSleep`:
  - `Regs` is the modelled register file: PRR, SREG, the sleep-mode select, SE,
    ACSR, MCUSR, whether the watchdog runs, and whether the BOD disable was
    issued. `Machine` adds the two saved values: the field `copyPRR` and the
    local `oldSREG`.
  - `Event` is one step of `goToSleep`. `Apply` is the effect of one step,
    register by register; `Run` replays a sequence of steps.
  - `Protocol(bits, ps, aw)` is the exact step sequence `goToSleep` performs,
    for given power-off flags and attached hooks.
  - Lemmas give the result of `Run` over the whole protocol and over each
    prefix. Others place every step in the sequence and fix its order
    relative to the others.
- `AvrSleepController` (`avr_sleep.dfy`) is the imperative model:
  - `Mcu` is the simulated register file, with a log of the steps performed
    on it. Each of its methods is one register statement or avr-libc macro
    of the source (`PRR = …`, `cli()`, `sleep_enable()`, …).
  - `AvrSleep` is the controller, with the fields `ps`, `aw`, `copyPRR` and
    `powerBits`. `#ifdef ARDUINO` becomes the constant field `arduino`, fixed
    when the controller is built.
  - `GoToSleep` runs the source's statements in the source's order, through
    methods that each cover one section of the function. It is proved to
    append exactly `Protocol(powerBits, ps, aw)` to the log, and to leave the
    registers and `copyPRR` exactly as `Run` says. Its ensures also state the
    round trip and the one-way shutdowns directly.
  - Four client methods cover concrete configurations. Each builds a fresh
    controller and register file and states the exact step sequence and
    final registers.

Register bits follow the ATmega328P datasheet: ACD is ACSR bit 7, WDRF is
MCUSR bit 3, and the global interrupt flag I is SREG bit 7. Hooks are
C callbacks in the source. Here a hook is a `HookId`, and a null
callback is `None`. Hook bodies are not modelled: a call is recorded in the
log and changes no modelled register.

`sleep_cpu` is modelled as the interrupt-wake path. It returns and changes no
modelled register.

Three points where the code is easy to misread; the model follows the code
as written:

- The usual recipe clears WDRF (`MCUSR &= ~(1 << WDRF)`) before
  `wdt_disable`. Line 96 of `AVR_sleep.cpp`, `MCUSR &= (1 << WDRF)`, keeps
  WDRF and clears every other MCUSR bit, and that is what `Apply`,
  `Mcu.KeepOnlyWdrf`, `ShutDownWatchdog` and `ProtocolOneWayShutdowns` state.
- The header comment (`AVR_sleep.h:24-47`) lists powering off peripherals
  after setting SE. The code powers them off before the pre-sleep hook and
  before `cli`. The model follows the code's order.
- `PM_AC_OFF`, `PM_BOD_OFF` and `PM_WDT_OFF` are tested as `1 << n`. Passing
  `PM_AC_OFF` itself as a mask selects PRR bit 3 (Timer 1), not the
  comparator. `AcOffAsMaskIsTimer1` and the client `AcOffAsMask` state this.

## Model

| member | source | states |
|---|---|---|
| `PowerModes.PrrBit` | AVRsleep/src/AVR_sleep.h:86-92 | each PRR peripheral's bit number is below 8 and is never the reserved bit 4 |
| `PowerModes.PowerOffFlag` | AVRsleep/src/AVR_sleep.h:86-92 | the power-off enumerator of each PRR peripheral is exactly `1 << ` its PRR bit, nonzero and with a zero high byte |
| `PowerModes.PrrFlagsAreDistinctLowBits` | AVRsleep/src/AVR_sleep.h:85-92 | two different PRR peripherals share no bit: their flags are disjoint and their bit numbers differ; PM_NONE is 0 |
| `PowerModes.PrrPart` | AVRsleep/src/AVR_sleep.cpp:72 | the byte written to PRR, `powerBits & 0x00ff` (its meaning is stated by `PrrPartIsLowByte`) |
| `PowerModes.PrrPartIsLowByte` | AVRsleep/src/AVR_sleep.cpp:72 | a power-off value is exactly its PRR byte together with its high byte: the PRR byte has no high bits and loses no low bit |
| `PowerModes.HasFlag` | AVRsleep/src/AVR_sleep.cpp:83-124 | the test `powerBits & (1 << position)` applied to the comparator, watchdog and BOD flags (its meaning is stated by `HighByteTests`) |
| `PowerModes.HighByteTests` | AVRsleep/src/AVR_sleep.cpp:83-124 | the comparator, BOD and watchdog tests look at bits 8, 9 and 10 of powerBits (masks 0x0100, 0x0200, 0x0400) and at nothing else |
| `PowerModes.PrrOffIsUnionOfPrrFlags` | AVRsleep/src/AVR_sleep.h:86-93 | PM_PRR_OFF is the OR of the seven PRR flags, contains each of them, and excludes bit 4 and the high byte |
| `PowerModes.HighByteFlagsNeverReachPrr` | AVRsleep/src/AVR_sleep.h:94-99 | the comparator, BOD and watchdog flags are positions 8, 9 and 10; their masks have a zero low byte, so OR-ing them into any value leaves the byte written to PRR unchanged |
| `PowerModes.EverythingOffIsPrrOffAndHighFlags` | AVRsleep/src/AVR_sleep.h:93-100 | PM_EVERYTHING_OFF is PM_PRR_OFF plus the three high-byte masks; it writes 0xEF to PRR and selects all three high-byte shutdowns |
| `PowerModes.AcOffAsMaskIsTimer1` | AVRsleep/src/AVR_sleep.h:89-97 | PM_AC_OFF equals PM_TIMER1_OFF; used as a mask it sets PRR bit 3, it does not select the comparator shutdown, and OR-ing it into a value never changes whether that shutdown is selected |
| `PowerModes.SleepModesAreSix` | AVRsleep/src/AVR_sleep.h:66-73 | every sleep mode is one of exactly six |
| `SleepProtocol.Apply` | AVRsleep/src/AVR_sleep.cpp:69-179 | the effect of each statement of goToSleep on the modelled registers and the two saved values; what a step may change is stated by `ApplyFrame`, and the effect of each group of steps by the `Run…` lemmas |
| `SleepProtocol.ApplyFrame` | AVRsleep/src/AVR_sleep.cpp:69-179 | no step changes the sleep mode; only the PRR writes change PRR and only cli, sei and the restore change SREG; only the saves change the saved values; wdt_reset, sleep_cpu and the hook calls change nothing modelled |
| `SleepProtocol.PowerOff` | AVRsleep/src/AVR_sleep.cpp:69-98 | the power-off steps in source order; their order is stated by `PowerOffSteps` and their effect by `RunPowerOff` |
| `SleepProtocol.HookCall` | AVRsleep/src/AVR_sleep.cpp:103-105 | a hook call when the hook is attached and nothing otherwise (also lines 178-180); stated by `ProtocolHooks` |
| `SleepProtocol.BeforeSleep` | AVRsleep/src/AVR_sleep.cpp:69-131 | the steps before the sleep instruction; their effect is stated by `RunBeforeSleep` |
| `SleepProtocol.Protocol` | AVRsleep/src/AVR_sleep.cpp:59-181 | the whole step sequence of goToSleep on the interrupt-wake path; its shape is stated by `ProtocolLayout` and the order lemmas, its effect by `RunProtocol` |
| `SleepProtocol.ShutDown` | AVRsleep/src/AVR_sleep.cpp:72-98 | the registers after the power-off steps; stated by `ShutDownRegisters` and `ShutDownWatchdog` |
| `SleepProtocol.ShutDownRegisters` | AVRsleep/src/AVR_sleep.cpp:72-85 | after the power-off steps PRR is the PRR byte of powerBits; SREG, the mode, SE and the BOD are untouched; ACD is set iff bit 8 was set or it was already set, and no other ACSR bit changes |
| `SleepProtocol.ShutDownWatchdog` | AVRsleep/src/AVR_sleep.cpp:94-98 | when bit 10 is set every MCUSR bit except WDRF is cleared, and otherwise none is; WDRF is kept either way; the watchdog is stopped iff bit 10 is set or it was already stopped |
| `SleepProtocol.RunPowerOff` | AVRsleep/src/AVR_sleep.cpp:69-98 | after the power-off steps, PRR is `powerBits & 0xff` whatever it held before; ACD is set iff bit 8 is set; MCUSR is masked to WDRF and the watchdog stopped iff bit 10 is set; the PRR copy holds the entry PRR; nothing else changes |
| `SleepProtocol.RunBeforeSleep` | AVRsleep/src/AVR_sleep.cpp:69-131 | just before the sleep instruction: the shut-down registers, SE set, SREG equal to its entry value with I set, the BOD disable issued iff bit 9 is set, and oldSREG equal to the entry SREG |
| `SleepProtocol.RunProtocol` | AVRsleep/src/AVR_sleep.cpp:59-181 | the whole machine after goToSleep: PRR and SREG back at their entry values, SE clear, the one-way shutdowns kept, the PRR copy equal to the entry PRR |
| `SleepProtocol.ProtocolRestoresState` | AVRsleep/src/AVR_sleep.cpp:69-173 | save/restore round trip: after goToSleep, PRR and the whole SREG byte equal their entry values, SE is clear, the sleep mode is unchanged, and copyPRR holds the entry PRR |
| `SleepProtocol.ProtocolOneWayShutdowns` | AVRsleep/src/AVR_sleep.cpp:81-126 | after wake, ACSR has ACD set iff bit 8 was set and is otherwise unchanged; MCUSR is `MCUSR & (1<<WDRF)` and the watchdog off iff bit 10 was set, and otherwise both are unchanged; the BOD disable was issued iff bit 9 was set |
| `SleepProtocol.ProtocolLayout` | AVRsleep/src/AVR_sleep.cpp:59-181 | the step sequence region by region: PRR saved then written, only shutdown steps up to the pre-hook, the pre-hook iff attached, then SREG save, cli, sleep_enable, the optional BOD disable, sei, sleep, sleep_disable, the two restores and the after-wake hook iff attached |
| `SleepProtocol.ProtocolPositions` | AVRsleep/src/AVR_sleep.cpp:59-181 | every step that happens once is found at its own position and nowhere else (PRR written only at step 1, cli only right after the SREG save, and so on) |
| `SleepProtocol.PowerOffSteps` | AVRsleep/src/AVR_sleep.cpp:69-98 | the power-off steps are the PRR save and write, then the comparator disable iff bit 8 is set, then watchdog reset, MCUSR mask and watchdog disable, consecutive in that order, iff bit 10 is set; nothing else |
| `SleepProtocol.ProtocolNoRepeats` | AVRsleep/src/AVR_sleep.cpp:59-181 | no step of goToSleep happens twice |
| `SleepProtocol.PrrHeldUntilRestore` | AVRsleep/src/AVR_sleep.cpp:69-172 | at every point from the PRR write until the PRR restore, PRR is exactly `powerBits & 0xff`: PRR is overwritten, not OR-ed |
| `SleepProtocol.InterruptsMaskedWhileArming` | AVRsleep/src/AVR_sleep.cpp:110-131 | at every point after cli and before sei, the global interrupt flag is clear |
| `SleepProtocol.PreHookSees` | AVRsleep/src/AVR_sleep.cpp:69-105 | the pre-hook runs with the peripherals already shut down (PRR overwritten) and SREG still as at entry |
| `SleepProtocol.SleepCpuSees` | AVRsleep/src/AVR_sleep.cpp:110-136 | when the sleep instruction runs, SE is set and the interrupt flag is set whatever it was at entry; PRR holds the power-off value and the BOD disable was issued iff bit 9 is set |
| `SleepProtocol.PostHookSees` | AVRsleep/src/AVR_sleep.cpp:163-180 | the after-wake hook is the last step and sees PRR and SREG restored and SE clear |
| `SleepProtocol.ProtocolHookFirst` | AVRsleep/src/AVR_sleep.cpp:103-111 | the pre-hook runs before SREG is saved and before cli |
| `SleepProtocol.ProtocolArmSteps` | AVRsleep/src/AVR_sleep.cpp:110-116 | the SREG save, cli and sleep_enable are consecutive |
| `SleepProtocol.ProtocolSleepWindow` | AVRsleep/src/AVR_sleep.cpp:116-136 | sleep_enable, then the BOD disable iff bit 9 is set, then sei, then sleep, with nothing in between |
| `SleepProtocol.ProtocolWakeSteps` | AVRsleep/src/AVR_sleep.cpp:136-180 | after sleep come sleep_disable, the PRR restore and the SREG restore, consecutive; the after-wake hook can only be the last step |
| `SleepProtocol.ProtocolHooks` | AVRsleep/src/AVR_sleep.cpp:103-180 | a pre-hook or after-wake hook call appears in the steps iff that very hook is attached |
| `AvrSleepController.SelectedMode` | AVRsleep/src/AVR_sleep.cpp:24-50 | on the Arduino the selected mode is never power-save or extended standby (these become power-down and standby); the request is kept exactly when it is not one of those two on the Arduino |
| `AvrSleepController.Mcu.SelectSleepMode` | AVRsleep/src/AVR_sleep.cpp:50 | set_sleep_mode changes only the mode select bits |
| `AvrSleepController.Mcu.SnapshotPrr` | AVRsleep/src/AVR_sleep.cpp:69 | reading PRR returns PRR and records the save |
| `AvrSleepController.Mcu.OverwritePrr` | AVRsleep/src/AVR_sleep.cpp:72 | PRR becomes the given byte; nothing else changes |
| `AvrSleepController.Mcu.SetAcd` | AVRsleep/src/AVR_sleep.cpp:84 | ACSR gains ACD; nothing else changes |
| `AvrSleepController.Mcu.ResetWatchdog` | AVRsleep/src/AVR_sleep.cpp:95 | wdt_reset changes no modelled register |
| `AvrSleepController.Mcu.KeepOnlyWdrf` | AVRsleep/src/AVR_sleep.cpp:96 | MCUSR becomes `MCUSR & (1<<WDRF)`; nothing else changes |
| `AvrSleepController.Mcu.StopWatchdog` | AVRsleep/src/AVR_sleep.cpp:97 | the watchdog is off; nothing else changes |
| `AvrSleepController.Mcu.CallPreSleep` | AVRsleep/src/AVR_sleep.cpp:104 | a pre-hook call is recorded and changes no register |
| `AvrSleepController.Mcu.SnapshotSreg` | AVRsleep/src/AVR_sleep.cpp:110 | reading SREG returns SREG and records the save |
| `AvrSleepController.Mcu.ClearInterrupts` | AVRsleep/src/AVR_sleep.cpp:111 | cli clears SREG bit 7 only |
| `AvrSleepController.Mcu.EnableSleep` | AVRsleep/src/AVR_sleep.cpp:116 | sleep_enable sets SE only |
| `AvrSleepController.Mcu.DisableBod` | AVRsleep/src/AVR_sleep.cpp:125 | sleep_bod_disable marks the BOD disabled only |
| `AvrSleepController.Mcu.SetInterrupts` | AVRsleep/src/AVR_sleep.cpp:131 | sei sets SREG bit 7 only |
| `AvrSleepController.Mcu.Sleep` | AVRsleep/src/AVR_sleep.cpp:136 | sleep_cpu, on the interrupt-wake path, changes no modelled register |
| `AvrSleepController.Mcu.DisableSleep` | AVRsleep/src/AVR_sleep.cpp:163 | sleep_disable clears SE only |
| `AvrSleepController.Mcu.RestorePrrFrom` | AVRsleep/src/AVR_sleep.cpp:172 | PRR becomes the saved copy only |
| `AvrSleepController.Mcu.RestoreSregFrom` | AVRsleep/src/AVR_sleep.cpp:173 | SREG becomes the saved byte only |
| `AvrSleepController.Mcu.CallAfterWake` | AVRsleep/src/AVR_sleep.cpp:179 | an after-wake hook call is recorded and changes no register |
| `AvrSleepController.AvrSleep.constructor` | AVRsleep/src/AVR_sleep.cpp:8-13 | a new controller has no hooks, copyPRR 0 and powerBits PM_NONE |
| `AvrSleepController.AvrSleep.SetSleepMode` | AVRsleep/src/AVR_sleep.cpp:20-51 | powerBits becomes the argument verbatim and the mode select becomes `SelectedMode`; PRR, SREG, ACSR, MCUSR, the other registers, the hooks and copyPRR are unchanged |
| `AvrSleepController.AvrSleep.AttachPreSleep` | AVRsleep/src/AVR_sleep.cpp:186-188 | the pre-sleep hook becomes the argument; every other field is unchanged |
| `AvrSleepController.AvrSleep.AttachWakeUp` | AVRsleep/src/AVR_sleep.cpp:193-195 | the after-wake hook becomes the argument; every other field is unchanged |
| `AvrSleepController.AvrSleep.ComparatorOff` | AVRsleep/src/AVR_sleep.cpp:83-85 | ACD is set, and the step recorded, exactly when bit 8 of powerBits is set |
| `AvrSleepController.AvrSleep.WatchdogOff` | AVRsleep/src/AVR_sleep.cpp:94-98 | exactly when bit 10 is set: the watchdog is reset, MCUSR is masked to WDRF and the watchdog is disabled, in that order |
| `AvrSleepController.AvrSleep.PowerOffPeripherals` | AVRsleep/src/AVR_sleep.cpp:69-98 | copyPRR gets the entry PRR; the registers become `ShutDown` of the entry registers; the steps recorded are `PowerOff(powerBits)` |
| `AvrSleepController.AvrSleep.PreSleepHook` | AVRsleep/src/AVR_sleep.cpp:103-105 | the pre-sleep hook is called iff attached |
| `AvrSleepController.AvrSleep.SaveAndArm` | AVRsleep/src/AVR_sleep.cpp:110-116 | returns the entry SREG; the I bit is cleared and SE set |
| `AvrSleepController.AvrSleep.BodOff` | AVRsleep/src/AVR_sleep.cpp:124-126 | the BOD disable happens exactly when bit 9 of powerBits is set |
| `AvrSleepController.AvrSleep.SleepAndRestore` | AVRsleep/src/AVR_sleep.cpp:136-173 | after sleep and wake: SE clear, PRR from copyPRR, SREG from the saved byte |
| `AvrSleepController.AvrSleep.AfterWakeHook` | AVRsleep/src/AVR_sleep.cpp:178-180 | the after-wake hook is called iff attached |
| `AvrSleepController.AvrSleep.GoToSleep` | AVRsleep/src/AVR_sleep.cpp:59-181 | the steps performed are exactly `Protocol(powerBits, ps, aw)`; the registers and copyPRR are what `Run` gives; PRR and SREG are restored, SE is clear, the mode is unchanged; ACSR, MCUSR, the watchdog and the BOD flag carry the one-way shutdowns; powerBits and the hooks are unchanged |
| `AvrSleepController.TimerOneAndComparatorOff` | AVRsleep/src/AVR_sleep.cpp:59-181 | Timer 1 plus comparator off, power-down, no hooks: the exact eleven steps, with PRR 0x08 while asleep, and the final registers (comparator off, everything else restored) |
| `AvrSleepController.ArduinoEverythingOff` | AVRsleep/src/AVR_sleep.cpp:20-181 | on the Arduino, power-save with everything off and both hooks: power-down is selected, and the exact seventeen steps and final registers result |
| `AvrSleepController.AcOffAsMask` | AVRsleep/src/AVR_sleep.cpp:72-85 | PM_AC_OFF passed as a mask writes 0x08 to PRR and never disables the comparator |
| `AvrSleepController.LastHookWins` | AVRsleep/src/AVR_sleep.cpp:186-188 | after attaching two pre-sleep hooks and nothing else, the exact eleven steps run, with only the second hook and no after-wake hook; the registers end as they began except SE clear |

## Left out

- The reset wake path. A reset during sleep never returns into `goToSleep`, so no restore and no hook runs. Only the interrupt-wake path is modelled.
- Cycle timing. The three-cycle limit between the BOD disable and the sleep instruction is stated only as adjacency in the step sequence (`ProtocolSleepWindow`).
- The avr-libc macros (`set_sleep_mode`, `sleep_enable`, `sleep_bod_disable`, `sleep_cpu`, `sleep_disable`, `cli`, `sei`, `wdt_reset`, `wdt_disable`) are external headers. Each is modelled only by its effect on the modelled registers.
- The watchdog's countdown is not modelled. `wdt_reset` is recorded as a step and changes no modelled value.
- The hardware re-enables the BOD on wake-up, and this is not modelled. The BOD flag records only that the disable sequence was issued.
- Hook bodies are callbacks into application code and are not modelled: a hook call changes no modelled register. A real hook may run `sei()`, `cli()` or write PRR (`power_adc_disable()`); the claims listed next rest on hooks that do not.
- SleepProtocol.ProtocolRestoresState: SREG is proved restored to its value at entry. With a hook that changes SREG, the restored value is SREG as the pre-sleep hook left it, because `oldSREG` is read at line 110, after the hook at lines 103-105.
- SleepProtocol.PrrHeldUntilRestore: PRR is proved to hold the power-off byte until the restore only for a pre-sleep hook that leaves PRR alone.
- SleepProtocol.PreHookSees: it is about the state before any hook runs, so hooks do not affect it; its "SREG still as at entry" rests on the SREG status-bit simplification below.
- SleepProtocol.SleepCpuSees: PRR and SREG at the sleep instruction assume the pre-sleep hook changed neither.
- AvrSleepController.AvrSleep.GoToSleep: its register ensures rest on the same assumption about both hooks. The PRR restore would still hold with any hook, since `copyPRR` is taken at line 69 before the pre-sleep hook, but that is not proved here.
- SREG status bits 0-6 are changed by ordinary instructions (the `if` tests, the read-modify-write in `sleep_bod_disable`); the model lets only cli, sei and the restore touch SREG, so its SREG claims describe a processor on which no other instruction changes SREG.
- AvrSleepController.Mcu.StopWatchdog: models the intended effect of `wdt_disable`. On the ATmega328P, WDE is forced on while WDRF is set, and line 96 keeps WDRF, so after a watchdog reset `wdt_disable` would not stop the watchdog; the model does not capture this.
- AvrSleepController.Mcu.SetAcd: `ACSR |= (1 << ACD)` is a read-modify-write that writes back a 1 to a pending ACI flag and so clears it; the model leaves the other ACSR bits unchanged and does not capture this.
- Reentrancy, where a hook calls `goToSleep`, is undefined in the source and is not modelled.
- Interrupt handlers are not modelled, including the one that wakes the processor and any that run between `sei` and `sleep_cpu`.
- The concrete `SLEEP_MODE_*` values and the 8-bit width of `sleepMode_t` come from avr-libc. The modes are an abstract six-value datatype. The PRR bit numbers are the ones listed in `AVR_sleep.h:86-92`.
- The global instance `AVRsleep` (`AVR_sleep.cpp:202`) is left out. Each client builds its own controller.
- The advice that pins be Hi-Z before sleeping (`AVR_sleep.h:24-47`) is documentation only, not behaviour.
- Reconfiguring TWI and SPI after wake is left to the application's after-wake hook.
- AvrSleepController.AvrSleep.GoToSleep: the `Run` machine it is compared with starts with the local `oldSREG` at 0. The local does not exist before `oldSREG = SREG`, and no result depends on that starting value.
