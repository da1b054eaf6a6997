/**
 * The sleep protocol of `AVR_sleep::goToSleep` as a sequence of events over
 * an abstract ATmega328P register file.  `Apply` gives the effect of one
 * step, `Run` replays a sequence of steps, and `Protocol` is the exact
 * sequence goToSleep performs on the interrupt-wake path for a given
 * configuration.  The lemmas state the protocol's promises over `Run` and
 * over the event sequence itself.
 */
module SleepProtocol {
  import opened PowerModes

  datatype Option<T> = None | Some(value: T)

  /** The identity of an application hook (a C callback in the source). */
  type HookId = nat

  // Bits of the ATmega328P registers that the protocol touches.
  /** SREG bit 7: the global interrupt enable flag. */
  const InterruptFlag: bv8 := 1 << 7
  /** ACSR bit 7: ACD, analog comparator disable. */
  const AcdMask: bv8 := 1 << 7
  /** MCUSR bit 3: WDRF, watchdog reset flag. */
  const WdrfMask: bv8 := 1 << 3

  /**
   * The modelled hardware state: PRR, SREG, the sleep-mode select bits and
   * the SE bit of SMCR, ACSR, MCUSR, whether the watchdog runs, and whether
   * the brown-out detector disable sequence has been issued.
   */
  datatype Regs = Regs(
    prr: bv8,
    sreg: bv8,
    mode: SleepMode,
    se: bool,
    acsr: bv8,
    mcusr: bv8,
    wdtEnabled: bool,
    bodDisabled: bool)

  /**
   * The registers together with the two saved values goToSleep keeps: the
   * `copyPRR` field of the controller and the local `oldSREG`.
   */
  datatype Machine = Machine(regs: Regs, copyPrr: bv8, oldSreg: bv8)

  /** One step of goToSleep. */
  datatype Event =
    | SavePrr                   // copyPRR = PRR
    | WritePrr(value: bv8)      // PRR = powerBits & 0x00ff
    | DisableComparator         // ACSR |= (1 << ACD)
    | WdtReset                  // wdt_reset()
    | KeepWdrf                  // MCUSR &= (1 << WDRF)
    | WdtDisable                // wdt_disable()
    | PreHook(hook: HookId)     // (ps)()
    | SaveSreg                  // oldSREG = SREG
    | Cli                       // cli()
    | SleepEnable               // sleep_enable()
    | BodDisable                // sleep_bod_disable()
    | Sei                       // sei()
    | SleepCpu                  // sleep_cpu(), interrupt-wake path
    | SleepDisable              // sleep_disable()
    | RestorePrr                // PRR = copyPRR
    | RestoreSreg               // SREG = oldSREG
    | PostHook(hook: HookId)    // (aw)()

  /**
   * The effect of one step on the machine, register by register: each
   * register changes only under the steps that name it.
   */
  function Apply(m: Machine, e: Event): Machine
  {
    var r := m.regs;
    Machine(
      Regs(
        prr := if e.WritePrr? then e.value else if e.RestorePrr? then m.copyPrr else r.prr,
        sreg := if e.Cli? then r.sreg & !InterruptFlag
                else if e.Sei? then r.sreg | InterruptFlag
                else if e.RestoreSreg? then m.oldSreg
                else r.sreg,
        mode := r.mode,
        se := if e.SleepEnable? then true else if e.SleepDisable? then false else r.se,
        acsr := if e.DisableComparator? then r.acsr | AcdMask else r.acsr,
        mcusr := if e.KeepWdrf? then r.mcusr & WdrfMask else r.mcusr,
        wdtEnabled := if e.WdtDisable? then false else r.wdtEnabled,
        bodDisabled := if e.BodDisable? then true else r.bodDisabled),
      copyPrr := if e.SavePrr? then r.prr else m.copyPrr,
      oldSreg := if e.SaveSreg? then r.sreg else m.oldSreg)
  }

  /** The machine after performing the steps `es` in order, starting from `m`. */
  function Run(m: Machine, es: seq<Event>): Machine
    decreases |es|
  {
    if es == [] then m else Apply(Run(m, es[..|es| - 1]), es[|es| - 1])
  }

  // The pieces of the protocol.

  /** The steps `es` when `c` holds, and nothing otherwise. */
  function When(c: bool, es: seq<Event>): seq<Event>
  {
    if c then es else []
  }

  /** Snapshot PRR, overwrite it, then the one-way comparator and watchdog shutdowns. */
  function PowerOff(bits: PowerMode): seq<Event>
  {
    [SavePrr, WritePrr(PrrPart(bits))]
    + When(HasFlag(bits, PmAcOff), [DisableComparator])
    + When(HasFlag(bits, PmWdtOff), [WdtReset, KeepWdrf, WdtDisable])
  }

  /** A call of the hook, if one is attached. */
  function HookCall(h: Option<HookId>, pre: bool): seq<Event>
  {
    if h.None? then [] else if pre then [PreHook(h.value)] else [PostHook(h.value)]
  }

  /** Everything goToSleep does before the sleep instruction. */
  function BeforeSleep(bits: PowerMode, ps: Option<HookId>): seq<Event>
  {
    PowerOff(bits) + HookCall(ps, true) + [SaveSreg, Cli, SleepEnable]
    + When(HasFlag(bits, PmBodOff), [BodDisable]) + [Sei]
  }

  /** The whole of goToSleep on the interrupt-wake path. */
  function Protocol(bits: PowerMode, ps: Option<HookId>, aw: Option<HookId>): seq<Event>
  {
    BeforeSleep(bits, ps) + [SleepCpu, SleepDisable, RestorePrr, RestoreSreg] + HookCall(aw, false)
  }

  // General facts about Run.

  /** Running `a` then `b` is running `a + b`. */
  lemma {:induction false} RunAppend(m: Machine, a: seq<Event>, b: seq<Event>)
    ensures Run(m, a + b) == Run(Run(m, a), b)
    decreases |b|
  {
    if b == [] {
      assert a + b == a;
    } else {
      var b' := b[..|b| - 1];
      assert (a + b)[..|a + b| - 1] == a + b';
      RunAppend(m, a, b');
    }
  }

  /** A step that leaves PRR alone. */
  predicate KeepsPrr(e: Event)
  {
    !e.WritePrr? && e != RestorePrr
  }

  /** A step that leaves SREG alone. */
  predicate KeepsSreg(e: Event)
  {
    e != Cli && e != Sei && e != RestoreSreg
  }

  /**
   * What one step may change: no step changes the sleep mode, PRR and SREG
   * change only under the steps that write them, the two saved values only
   * under their saves, and wdt_reset, the sleep instruction and the hook
   * calls change nothing modelled.
   */
  lemma ApplyFrame(m: Machine, e: Event)
    ensures Apply(m, e).regs.mode == m.regs.mode
    ensures KeepsPrr(e) ==> Apply(m, e).regs.prr == m.regs.prr
    ensures KeepsSreg(e) ==> Apply(m, e).regs.sreg == m.regs.sreg
    ensures e.PreHook? || e.PostHook? || e == WdtReset || e == SleepCpu ==> Apply(m, e) == m
    ensures !e.SavePrr? ==> Apply(m, e).copyPrr == m.copyPrr
    ensures !e.SaveSreg? ==> Apply(m, e).oldSreg == m.oldSreg
  {
    match e
    case PreHook(_) =>
    case PostHook(_) =>
    case WdtReset =>
    case SleepCpu =>
    case _ =>
  }

  /** The machine after `k + 1` steps is step `k` applied to the machine after `k` steps. */
  lemma RunPrefixStep(m: Machine, t: seq<Event>, k: nat)
    requires k < |t|
    ensures Run(m, t[..k + 1]) == Apply(Run(m, t[..k]), t[k])
  {
    assert t[..k + 1][..k] == t[..k];
  }

  /** Steps `lo .. hi-1` of `t` keep PRR, so PRR after `hi` steps equals PRR after `lo` steps. */
  lemma {:induction false} RunKeepsPrr(m: Machine, t: seq<Event>, lo: nat, hi: nat)
    requires lo <= hi <= |t|
    requires forall i :: lo <= i < hi ==> KeepsPrr(t[i])
    ensures Run(m, t[..hi]).regs.prr == Run(m, t[..lo]).regs.prr
    decreases hi - lo
  {
    if lo < hi {
      RunKeepsPrr(m, t, lo, hi - 1);
      RunPrefixStep(m, t, hi - 1);
      assert KeepsPrr(t[hi - 1]);
    }
  }

  /** Steps `lo .. hi-1` of `t` keep SREG, so SREG after `hi` steps equals SREG after `lo` steps. */
  lemma {:induction false} RunKeepsSreg(m: Machine, t: seq<Event>, lo: nat, hi: nat)
    requires lo <= hi <= |t|
    requires forall i :: lo <= i < hi ==> KeepsSreg(t[i])
    ensures Run(m, t[..hi]).regs.sreg == Run(m, t[..lo]).regs.sreg
    decreases hi - lo
  {
    if lo < hi {
      RunKeepsSreg(m, t, lo, hi - 1);
      RunPrefixStep(m, t, hi - 1);
      assert KeepsSreg(t[hi - 1]);
    }
  }

  // The effect of each piece of the protocol.

  /** Running `a` and then one more step. */
  lemma RunSnoc(m: Machine, a: seq<Event>, e: Event)
    ensures Run(m, a + [e]) == Apply(Run(m, a), e)
  {
    assert (a + [e])[..|a|] == a;
  }

  lemma RunTwo(m: Machine, e0: Event, e1: Event)
    ensures Run(m, [e0, e1]) == Apply(Apply(m, e0), e1)
  {
    RunSnoc(m, [], e0);
    assert [] + [e0] == [e0];
    RunSnoc(m, [e0], e1);
    assert [e0] + [e1] == [e0, e1];
  }

  lemma RunThree(m: Machine, e0: Event, e1: Event, e2: Event)
    ensures Run(m, [e0, e1, e2]) == Apply(Apply(Apply(m, e0), e1), e2)
  {
    RunTwo(m, e0, e1);
    RunSnoc(m, [e0, e1], e2);
    assert [e0, e1] + [e2] == [e0, e1, e2];
  }

  lemma RunFour(m: Machine, e0: Event, e1: Event, e2: Event, e3: Event)
    ensures Run(m, [e0, e1, e2, e3]) == Apply(Apply(Apply(Apply(m, e0), e1), e2), e3)
  {
    RunThree(m, e0, e1, e2);
    RunSnoc(m, [e0, e1, e2], e3);
    assert [e0, e1, e2] + [e3] == [e0, e1, e2, e3];
  }

  /** Running `a` and then steps that happen only when `c` holds. */
  lemma RunWhen(m: Machine, a: seq<Event>, c: bool, es: seq<Event>)
    ensures Run(m, a + When(c, es)) == if c then Run(Run(m, a), es) else Run(m, a)
  {
    RunAppend(m, a, When(c, es));
    if !c {
      assert When(c, es) == [];
    }
  }

  lemma RunOne(m: Machine, e: Event)
    ensures Run(m, [e]) == Apply(m, e)
  {
    RunSnoc(m, [], e);
    assert [] + [e] == [e];
  }

  /** A hook call changes no modelled register (the hook body is not modelled). */
  lemma RunHookCall(m: Machine, h: Option<HookId>, pre: bool)
    ensures Run(m, HookCall(h, pre)) == m
  {
    if h.Some? {
      if pre {
        RunOne(m, PreHook(h.value));
      } else {
        RunOne(m, PostHook(h.value));
      }
    }
  }

  /** The registers after the power-off steps: PRR overwritten, one-way shutdowns applied. */
  function ShutDown(r: Regs, bits: PowerMode): Regs
  {
    var ac := HasFlag(bits, PmAcOff);
    var wdt := HasFlag(bits, PmWdtOff);
    r.(prr := PrrPart(bits),
       acsr := if ac then r.acsr | AcdMask else r.acsr,
       mcusr := if wdt then r.mcusr & WdrfMask else r.mcusr,
       wdtEnabled := r.wdtEnabled && !wdt)
  }

  /**
   * The power-off steps overwrite PRR and leave SREG, the sleep mode, SE and
   * the BOD alone; the comparator shutdown sets ACD when bit 8 is set and
   * touches no other ACSR bit, and ACD is never cleared.
   */
  lemma ShutDownRegisters(r: Regs, bits: PowerMode)
    ensures ShutDown(r, bits).prr == PrrPart(bits)
    ensures ShutDown(r, bits).sreg == r.sreg && ShutDown(r, bits).mode == r.mode
    ensures ShutDown(r, bits).se == r.se && ShutDown(r, bits).bodDisabled == r.bodDisabled
    ensures ShutDown(r, bits).acsr & !AcdMask == r.acsr & !AcdMask
    ensures ShutDown(r, bits).acsr & AcdMask != 0 <==> HasFlag(bits, PmAcOff) || r.acsr & AcdMask != 0
  {
  }

  /**
   * The watchdog shutdown, when bit 10 is set, clears every MCUSR bit except
   * WDRF, which it keeps, and stops the watchdog; a stopped watchdog stays stopped.
   */
  lemma ShutDownWatchdog(r: Regs, bits: PowerMode)
    ensures ShutDown(r, bits).mcusr & !WdrfMask == if HasFlag(bits, PmWdtOff) then 0 else r.mcusr & !WdrfMask
    ensures ShutDown(r, bits).mcusr & WdrfMask == r.mcusr & WdrfMask
    ensures !ShutDown(r, bits).wdtEnabled <==> HasFlag(bits, PmWdtOff) || !r.wdtEnabled
  {
  }

  /** Running `a` and then one step that happens only when `c` holds. */
  lemma RunWhenOne(m: Machine, a: seq<Event>, c: bool, e: Event)
    ensures Run(m, a + When(c, [e])) == if c then Apply(Run(m, a), e) else Run(m, a)
  {
    if c {
      RunSnoc(m, a, e);
    } else {
      assert a + When(c, [e]) == a;
    }
  }

  /** The watchdog steps, after any prefix `a`. */
  lemma RunWatchdogOff(m: Machine, a: seq<Event>, wdt: bool)
    ensures var p := Run(m, a);
            Run(m, a + When(wdt, [WdtReset, KeepWdrf, WdtDisable]))
            == if wdt then p.(regs := p.regs.(mcusr := p.regs.mcusr & WdrfMask, wdtEnabled := false))
               else p
  {
    if wdt {
      RunAppend(m, a, [WdtReset, KeepWdrf, WdtDisable]);
      RunThree(Run(m, a), WdtReset, KeepWdrf, WdtDisable);
    } else {
      assert a + When(wdt, [WdtReset, KeepWdrf, WdtDisable]) == a;
    }
  }

  /** The comparator and watchdog steps, after any prefix `a`. */
  lemma RunShutdowns(m: Machine, a: seq<Event>, ac: bool, wdt: bool)
    ensures var p := Run(m, a);
            Run(m, a + When(ac, [DisableComparator]) + When(wdt, [WdtReset, KeepWdrf, WdtDisable]))
            == p.(regs := p.regs.(
                 acsr := if ac then p.regs.acsr | AcdMask else p.regs.acsr,
                 mcusr := if wdt then p.regs.mcusr & WdrfMask else p.regs.mcusr,
                 wdtEnabled := p.regs.wdtEnabled && !wdt))
  {
    RunWhenOne(m, a, ac, DisableComparator);
    RunWatchdogOff(m, a + When(ac, [DisableComparator]), wdt);
  }

  lemma RunPowerOff(m: Machine, bits: PowerMode)
    ensures Run(m, PowerOff(bits)) == Machine(ShutDown(m.regs, bits), m.regs.prr, m.oldSreg)
  {
    RunTwo(m, SavePrr, WritePrr(PrrPart(bits)));
    RunShutdowns(m, [SavePrr, WritePrr(PrrPart(bits))], HasFlag(bits, PmAcOff), HasFlag(bits, PmWdtOff));
  }

  /** Save SREG, cli and sleep_enable, after any prefix `x`. */
  lemma RunCliArm(m: Machine, x: seq<Event>)
    ensures var q := Run(m, x);
            Run(m, x + [SaveSreg, Cli, SleepEnable])
            == Machine(q.regs.(sreg := q.regs.sreg & !InterruptFlag, se := true), q.copyPrr, q.regs.sreg)
  {
    RunAppend(m, x, [SaveSreg, Cli, SleepEnable]);
    RunThree(Run(m, x), SaveSreg, Cli, SleepEnable);
  }

  /** Save SREG, cli, arm, optional BOD disable and sei, after any prefix `x`. */
  lemma RunArm(m: Machine, x: seq<Event>, bod: bool)
    ensures var q := Run(m, x);
            Run(m, x + [SaveSreg, Cli, SleepEnable] + When(bod, [BodDisable]) + [Sei])
            == Machine(q.regs.(sreg := q.regs.sreg | InterruptFlag, se := true,
                               bodDisabled := q.regs.bodDisabled || bod),
                       q.copyPrr, q.regs.sreg)
  {
    var x2 := x + [SaveSreg, Cli, SleepEnable];
    var x3 := x2 + When(bod, [BodDisable]);
    RunCliArm(m, x);
    RunWhenOne(m, x2, bod, BodDisable);
    RunSnoc(m, x3, Sei);
    var q := Run(m, x);
    assert (q.regs.sreg & !InterruptFlag) | InterruptFlag == q.regs.sreg | InterruptFlag;
  }

  lemma RunBeforeSleep(m: Machine, bits: PowerMode, ps: Option<HookId>)
    ensures Run(m, BeforeSleep(bits, ps)) == Machine(
              ShutDown(m.regs, bits).(sreg := m.regs.sreg | InterruptFlag, se := true,
                bodDisabled := m.regs.bodDisabled || HasFlag(bits, PmBodOff)),
              m.regs.prr, m.regs.sreg)
  {
    var x0 := PowerOff(bits);
    RunPowerOff(m, bits);
    RunAppend(m, x0, HookCall(ps, true));
    RunHookCall(Run(m, x0), ps, true);
    RunArm(m, x0 + HookCall(ps, true), HasFlag(bits, PmBodOff));
  }

  /** The sleep instruction and the wake-up restores, after any prefix `b`. */
  lemma RunWake(m: Machine, b: seq<Event>)
    ensures var s := Run(m, b);
            Run(m, b + [SleepCpu, SleepDisable, RestorePrr, RestoreSreg])
            == s.(regs := s.regs.(se := false, prr := s.copyPrr, sreg := s.oldSreg))
  {
    RunAppend(m, b, [SleepCpu, SleepDisable, RestorePrr, RestoreSreg]);
    RunFour(Run(m, b), SleepCpu, SleepDisable, RestorePrr, RestoreSreg);
  }

  lemma RunProtocol(m: Machine, bits: PowerMode, ps: Option<HookId>, aw: Option<HookId>)
    ensures Run(m, Protocol(bits, ps, aw)) == Machine(
              ShutDown(m.regs, bits).(prr := m.regs.prr, sreg := m.regs.sreg, se := false,
                bodDisabled := m.regs.bodDisabled || HasFlag(bits, PmBodOff)),
              m.regs.prr, m.regs.sreg)
  {
    var b := BeforeSleep(bits, ps);
    var x := b + [SleepCpu, SleepDisable, RestorePrr, RestoreSreg];
    RunBeforeSleep(m, bits, ps);
    RunWake(m, b);
    RunAppend(m, x, HookCall(aw, false));
    RunHookCall(Run(m, x), aw, false);
  }

  // The promises of goToSleep, stated over Run and Protocol.

  /**
   * Save/restore round trip: after the protocol PRR and the whole SREG byte
   * hold their values at entry, SE is clear, the selected sleep mode is
   * unchanged, and the PRR snapshot is the entry value of PRR.
   */
  lemma ProtocolRestoresState(m: Machine, bits: PowerMode, ps: Option<HookId>, aw: Option<HookId>)
    ensures var f := Run(m, Protocol(bits, ps, aw));
            f.regs.prr == m.regs.prr && f.regs.sreg == m.regs.sreg && !f.regs.se
            && f.regs.mode == m.regs.mode && f.copyPrr == m.regs.prr
  {
    RunProtocol(m, bits, ps, aw);
  }

  /**
   * The comparator and watchdog shutdowns are one-way: they persist after
   * wake, and happen only when their flag is set.  The BOD disable sequence
   * is issued exactly when bit 9 is set.
   */
  lemma ProtocolOneWayShutdowns(m: Machine, bits: PowerMode, ps: Option<HookId>, aw: Option<HookId>)
    ensures var f := Run(m, Protocol(bits, ps, aw));
            && f.regs.acsr == (if HasFlag(bits, PmAcOff) then m.regs.acsr | AcdMask else m.regs.acsr)
            && f.regs.mcusr == (if HasFlag(bits, PmWdtOff) then m.regs.mcusr & WdrfMask else m.regs.mcusr)
            && f.regs.wdtEnabled == (m.regs.wdtEnabled && !HasFlag(bits, PmWdtOff))
            && f.regs.bodDisabled == (m.regs.bodDisabled || HasFlag(bits, PmBodOff))
  {
    RunProtocol(m, bits, ps, aw);
  }

  // Where each step stands in the protocol.

  /** 1 when `c` holds and 0 otherwise. */
  function Once(c: bool): nat
  {
    if c then 1 else 0
  }

  /** The one-way shutdown steps that follow the PRR write. */
  predicate IsShutdownStep(e: Event)
  {
    e == DisableComparator || e == WdtReset || e == KeepWdrf || e == WdtDisable
  }

  /** The number of steps before `oldSREG = SREG`: power-off steps and the pre-hook call. */
  function HookEnd(bits: PowerMode, ps: Option<HookId>): nat
  {
    |PowerOff(bits)| + |HookCall(ps, true)|
  }

  /** The position of SleepCpu. */
  function SleepIndex(bits: PowerMode, ps: Option<HookId>): nat
  {
    |BeforeSleep(bits, ps)|
  }

  /** `a` is a prefix of `a + b`, and `b` begins at index `|a|`. */
  lemma IndexAppend(a: seq<Event>, b: seq<Event>)
    ensures forall i :: 0 <= i < |a| ==> (a + b)[i] == a[i]
    ensures forall i :: 0 <= i < |b| ==> (a + b)[|a| + i] == b[i]
  {
  }

  /** The comparator and watchdog steps after any prefix `a`: where each lands. */
  lemma ShutdownLayout(a: seq<Event>, ac: bool, wdt: bool)
    ensures var x := a + When(ac, [DisableComparator]) + When(wdt, [WdtReset, KeepWdrf, WdtDisable]);
            var w := |a| + (if ac then 1 else 0);
            && |x| == w + (if wdt then 3 else 0)
            && (forall i :: 0 <= i < |a| ==> x[i] == a[i])
            && (forall i :: |a| <= i < |x| ==> IsShutdownStep(x[i]))
            && (ac ==> x[|a|] == DisableComparator)
            && (wdt ==> x[w] == WdtReset && x[w + 1] == KeepWdrf && x[w + 2] == WdtDisable)
  {
    var x1 := a + When(ac, [DisableComparator]);
    IndexAppend(a, When(ac, [DisableComparator]));
    IndexAppend(x1, When(wdt, [WdtReset, KeepWdrf, WdtDisable]));
  }

  /** The arming steps after any prefix `x`: where each lands. */
  lemma ArmLayout(x: seq<Event>, bod: bool)
    ensures var b := x + [SaveSreg, Cli, SleepEnable] + When(bod, [BodDisable]) + [Sei];
            var l := |x|;
            && |b| == l + 4 + (if bod then 1 else 0)
            && (forall i :: 0 <= i < l ==> b[i] == x[i])
            && b[l] == SaveSreg && b[l + 1] == Cli && b[l + 2] == SleepEnable
            && (bod ==> b[l + 3] == BodDisable)
            && b[|b| - 1] == Sei
  {
    var x2 := x + [SaveSreg, Cli, SleepEnable];
    var x3 := x2 + When(bod, [BodDisable]);
    IndexAppend(x, [SaveSreg, Cli, SleepEnable]);
    IndexAppend(x2, When(bod, [BodDisable]));
    IndexAppend(x3, [Sei]);
  }

  /** The wake-up steps and the post-hook after any prefix `b`: where each lands. */
  lemma WakeLayout(b: seq<Event>, aw: Option<HookId>)
    ensures var t := b + [SleepCpu, SleepDisable, RestorePrr, RestoreSreg] + HookCall(aw, false);
            var s := |b|;
            && |t| == s + 4 + (if aw.Some? then 1 else 0)
            && (forall i :: 0 <= i < s ==> t[i] == b[i])
            && t[s] == SleepCpu && t[s + 1] == SleepDisable
            && t[s + 2] == RestorePrr && t[s + 3] == RestoreSreg
            && (aw.Some? ==> t[s + 4] == PostHook(aw.value))
  {
    var x := b + [SleepCpu, SleepDisable, RestorePrr, RestoreSreg];
    IndexAppend(b, [SleepCpu, SleepDisable, RestorePrr, RestoreSreg]);
    IndexAppend(x, HookCall(aw, false));
  }

  /** The steps before the sleep instruction, region by region. */
  lemma BeforeSleepLayout(bits: PowerMode, ps: Option<HookId>)
    ensures var b := BeforeSleep(bits, ps);
            var p := |PowerOff(bits)|;
            var l := HookEnd(bits, ps);
            var bod := HasFlag(bits, PmBodOff);
            && 2 <= p <= l && l == p + (if ps.Some? then 1 else 0)
            && |b| == l + 4 + (if bod then 1 else 0)
            && b[0] == SavePrr && b[1] == WritePrr(PrrPart(bits))
            && (forall i :: 2 <= i < p ==> IsShutdownStep(b[i]))
            && (ps.Some? ==> b[p] == PreHook(ps.value))
            && b[l] == SaveSreg && b[l + 1] == Cli && b[l + 2] == SleepEnable
            && (bod ==> b[l + 3] == BodDisable)
            && b[|b| - 1] == Sei
            && (forall i :: 0 <= i < p ==> b[i] == PowerOff(bits)[i])
  {
    var x0 := PowerOff(bits);
    var x1 := x0 + HookCall(ps, true);
    var b := BeforeSleep(bits, ps);
    ShutdownLayout([SavePrr, WritePrr(PrrPart(bits))], HasFlag(bits, PmAcOff), HasFlag(bits, PmWdtOff));
    IndexAppend(x0, HookCall(ps, true));
    ArmLayout(x1, HasFlag(bits, PmBodOff));
    forall i | 0 <= i < |x0|
      ensures b[i] == x0[i]
    {
      assert b[i] == x1[i];
    }
  }

  /**
   * The shape of a goToSleep trace `t`, region by region: the PRR snapshot
   * and the write of `v`, one-way shutdowns up to `p`, the pre-hook at `p`,
   * the arming steps from `l`, the sleep instruction at `s`, the restores
   * and the post-hook.
   */
  predicate Layout(t: seq<Event>, v: bv8, p: nat, l: nat, s: nat,
                   ps: Option<HookId>, aw: Option<HookId>, bod: bool)
  {
    && 2 <= p <= l && l == p + (if ps.Some? then 1 else 0)
    && s == l + 4 + (if bod then 1 else 0)
    && |t| == s + 4 + (if aw.Some? then 1 else 0)
    && t[0] == SavePrr && t[1] == WritePrr(v)
    && (forall i :: 2 <= i < p ==> IsShutdownStep(t[i]))
    && (ps.Some? ==> t[p] == PreHook(ps.value))
    && t[l] == SaveSreg && t[l + 1] == Cli && t[l + 2] == SleepEnable
    && (bod ==> t[l + 3] == BodDisable)
    && t[s - 1] == Sei && t[s] == SleepCpu && t[s + 1] == SleepDisable
    && t[s + 2] == RestorePrr && t[s + 3] == RestoreSreg
    && (aw.Some? ==> t[s + 4] == PostHook(aw.value))
  }

  /** goToSleep's trace has the shape `Layout` describes. */
  lemma ProtocolLayout(bits: PowerMode, ps: Option<HookId>, aw: Option<HookId>)
    ensures Layout(Protocol(bits, ps, aw), PrrPart(bits), |PowerOff(bits)|, HookEnd(bits, ps),
                   SleepIndex(bits, ps), ps, aw, HasFlag(bits, PmBodOff))
  {
    BeforeSleepLayout(bits, ps);
    WakeLayout(BeforeSleep(bits, ps), aw);
  }

  /** In a trace of that shape, the steps that occur once occur only at their place. */
  lemma LayoutPositions(t: seq<Event>, v: bv8, p: nat, l: nat, s: nat,
                        ps: Option<HookId>, aw: Option<HookId>, bod: bool, k: nat)
    requires Layout(t, v, p, l, s, ps, aw, bod)
    requires k < |t|
    ensures && (t[k] == SavePrr <==> k == 0)
            && (t[k].WritePrr? <==> k == 1)
            && (t[k].PreHook? <==> ps.Some? && k == p)
            && (t[k] == SaveSreg <==> k == l)
            && (t[k] == Cli <==> k == l + 1)
            && (t[k] == SleepEnable <==> k == l + 2)
            && (t[k] == BodDisable <==> bod && k == l + 3)
            && (t[k] == Sei <==> k == s - 1)
            && (t[k] == SleepCpu <==> k == s)
            && (t[k] == SleepDisable <==> k == s + 1)
            && (t[k] == RestorePrr <==> k == s + 2)
            && (t[k] == RestoreSreg <==> k == s + 3)
            && (t[k].PostHook? <==> aw.Some? && k == s + 4)
  {
    if 2 <= k < p {
      assert IsShutdownStep(t[k]);
    }
  }

  /** In a trace of the shape `Layout`, sleep_enable is step `l + 2` only. */
  lemma LayoutSleepEnableAt(t: seq<Event>, v: bv8, p: nat, l: nat, s: nat,
                            ps: Option<HookId>, aw: Option<HookId>, bod: bool, k: nat)
    requires Layout(t, v, p, l, s, ps, aw, bod)
    requires k < |t| && t[k] == SleepEnable
    ensures k == l + 2
  {
    LayoutPositions(t, v, p, l, s, ps, aw, bod, k);
  }

  /** In a trace of the shape `Layout`, the sleep instruction is step `s` only. */
  lemma LayoutSleepCpuAt(t: seq<Event>, v: bv8, p: nat, l: nat, s: nat,
                         ps: Option<HookId>, aw: Option<HookId>, bod: bool, k: nat)
    requires Layout(t, v, p, l, s, ps, aw, bod)
    requires k < |t| && t[k] == SleepCpu
    ensures k == s
  {
    LayoutPositions(t, v, p, l, s, ps, aw, bod, k);
  }

  /** In a trace of the shape `Layout`, an after-wake hook call can only be the last step. */
  lemma LayoutPostHookAt(t: seq<Event>, v: bv8, p: nat, l: nat, s: nat,
                         ps: Option<HookId>, aw: Option<HookId>, bod: bool, k: nat)
    requires Layout(t, v, p, l, s, ps, aw, bod)
    requires k < |t| && t[k].PostHook?
    ensures k == |t| - 1
  {
    LayoutPositions(t, v, p, l, s, ps, aw, bod, k);
  }

  /**
   * The steps that occur once occur exactly at their place: PRR is saved
   * only at step 0 and written only at step 1, the pre-hook runs only right
   * after the power-off steps, and the SREG save, cli, sleep_enable, the BOD
   * disable, sei, the sleep instruction, sleep_disable and the two restores
   * each happen at one position only.
   */
  lemma ProtocolPositions(bits: PowerMode, ps: Option<HookId>, aw: Option<HookId>)
    ensures var t := Protocol(bits, ps, aw);
            var p := |PowerOff(bits)|;
            var l := HookEnd(bits, ps);
            var s := SleepIndex(bits, ps);
            var bod := HasFlag(bits, PmBodOff);
            forall k :: 0 <= k < |t| ==>
              && (t[k] == SavePrr <==> k == 0)
              && (t[k].WritePrr? <==> k == 1)
              && (t[k].PreHook? <==> ps.Some? && k == p)
              && (t[k] == SaveSreg <==> k == l)
              && (t[k] == Cli <==> k == l + 1)
              && (t[k] == SleepEnable <==> k == l + 2)
              && (t[k] == BodDisable <==> bod && k == l + 3)
              && (t[k] == Sei <==> k == s - 1)
              && (t[k] == SleepCpu <==> k == s)
              && (t[k] == SleepDisable <==> k == s + 1)
              && (t[k] == RestorePrr <==> k == s + 2)
              && (t[k] == RestoreSreg <==> k == s + 3)
              && (t[k].PostHook? <==> aw.Some? && k == s + 4)
  {
    var t := Protocol(bits, ps, aw);
    ProtocolLayout(bits, ps, aw);
    forall k | 0 <= k < |t| {
      LayoutPositions(t, PrrPart(bits), |PowerOff(bits)|, HookEnd(bits, ps), SleepIndex(bits, ps),
                      ps, aw, HasFlag(bits, PmBodOff), k);
    }
  }

  // What each step sees.

  /** goToSleep's trace begins with the power-off steps and then, before the sleep instruction, is BeforeSleep. */
  lemma ProtocolPrefixes(bits: PowerMode, ps: Option<HookId>, aw: Option<HookId>)
    ensures var t := Protocol(bits, ps, aw);
            && |PowerOff(bits)| <= SleepIndex(bits, ps) < |t|
            && t[..|PowerOff(bits)|] == PowerOff(bits)
            && t[..SleepIndex(bits, ps)] == BeforeSleep(bits, ps)
  {
    var t := Protocol(bits, ps, aw);
    var b := BeforeSleep(bits, ps);
    BeforeSleepLayout(bits, ps);
    WakeLayout(b, aw);
    assert t[..|b|] == b;
    assert t[..|PowerOff(bits)|] == PowerOff(bits);
  }

  /** After a PRR write at step `w`, PRR keeps that value while no later step touches PRR. */
  lemma HeldAfterWrite(m: Machine, t: seq<Event>, w: nat, k: nat)
    requires w < k <= |t| && t[w].WritePrr?
    requires forall i :: w < i < k ==> KeepsPrr(t[i])
    ensures Run(m, t[..k]).regs.prr == t[w].value
  {
    RunPrefixStep(m, t, w);
    RunKeepsPrr(m, t, w + 1, k);
  }

  /**
   * From the PRR write until PRR is restored, PRR holds the low byte of the
   * power-off value: in particular while the pre-hook runs and while the
   * processor sleeps.
   */
  lemma PrrHeldUntilRestore(m: Machine, bits: PowerMode, ps: Option<HookId>, aw: Option<HookId>, k: nat)
    requires 2 <= k <= |Protocol(bits, ps, aw)|
    requires RestorePrr !in Protocol(bits, ps, aw)[..k]
    ensures Run(m, Protocol(bits, ps, aw)[..k]).regs.prr == PrrPart(bits)
  {
    var t := Protocol(bits, ps, aw);
    ProtocolLayout(bits, ps, aw);
    ProtocolPositions(bits, ps, aw);
    forall i | 1 < i < k
      ensures KeepsPrr(t[i])
    {
      assert t[..k][i] == t[i];
    }
    HeldAfterWrite(m, t, 1, k);
  }

  /** After a cli at step `c`, interrupts stay disabled while no later step touches SREG. */
  lemma MaskedAfterCli(m: Machine, t: seq<Event>, c: nat, k: nat)
    requires c < k <= |t| && t[c] == Cli
    requires forall i :: c < i < k ==> KeepsSreg(t[i])
    ensures Run(m, t[..k]).regs.sreg & InterruptFlag == 0
  {
    RunPrefixStep(m, t, c);
    RunKeepsSreg(m, t, c + 1, k);
    var q := Run(m, t[..c]).regs.sreg;
    assert (q & !InterruptFlag) & InterruptFlag == 0;
  }

  /** From cli until sei, global interrupts are disabled. */
  lemma InterruptsMaskedWhileArming(m: Machine, bits: PowerMode, ps: Option<HookId>, aw: Option<HookId>, k: nat)
    requires k <= |Protocol(bits, ps, aw)|
    requires Cli in Protocol(bits, ps, aw)[..k]
    requires Sei !in Protocol(bits, ps, aw)[..k]
    ensures Run(m, Protocol(bits, ps, aw)[..k]).regs.sreg & InterruptFlag == 0
  {
    var t := Protocol(bits, ps, aw);
    ProtocolPositions(bits, ps, aw);
    var s := SleepIndex(bits, ps);
    var c :| 0 <= c < k && t[..k][c] == Cli;
    assert t[s - 1] == Sei;
    forall i | c < i < k
      ensures KeepsSreg(t[i])
    {
      assert t[..k][i] == t[i];
    }
    MaskedAfterCli(m, t, c, k);
  }

  /**
   * The pre-hook sees the registers after the power-off steps (PRR already
   * overwritten, shutdowns applied) with SREG still as at entry.
   */
  lemma PreHookSees(m: Machine, bits: PowerMode, ps: Option<HookId>, aw: Option<HookId>, k: nat)
    requires k < |Protocol(bits, ps, aw)|
    requires Protocol(bits, ps, aw)[k].PreHook?
    ensures Run(m, Protocol(bits, ps, aw)[..k]).regs == ShutDown(m.regs, bits)
    ensures Run(m, Protocol(bits, ps, aw)[..k]).regs.sreg == m.regs.sreg
  {
    ProtocolPositions(bits, ps, aw);
    ProtocolPrefixes(bits, ps, aw);
    RunPowerOff(m, bits);
  }

  /**
   * When the sleep instruction executes, SE is set, global interrupts are
   * enabled (so an interrupt can wake the processor), PRR holds the
   * power-off value and the BOD disable has been issued exactly when bit 9
   * is set; SREG is otherwise as at entry.
   */
  lemma SleepCpuSees(m: Machine, bits: PowerMode, ps: Option<HookId>, aw: Option<HookId>, k: nat)
    requires k < |Protocol(bits, ps, aw)|
    requires Protocol(bits, ps, aw)[k] == SleepCpu
    ensures var r := Run(m, Protocol(bits, ps, aw)[..k]).regs;
            && r.se && r.sreg & InterruptFlag == InterruptFlag
            && r.sreg == m.regs.sreg | InterruptFlag
            && r.prr == PrrPart(bits)
            && r.bodDisabled == (m.regs.bodDisabled || HasFlag(bits, PmBodOff))
            && r.mode == m.regs.mode
  {
    ProtocolPositions(bits, ps, aw);
    ProtocolPrefixes(bits, ps, aw);
    RunBeforeSleep(m, bits, ps);
  }

  /** The post-hook runs last and sees PRR and SREG restored and SE clear. */
  lemma PostHookSees(m: Machine, bits: PowerMode, ps: Option<HookId>, aw: Option<HookId>, k: nat)
    requires k < |Protocol(bits, ps, aw)|
    requires Protocol(bits, ps, aw)[k].PostHook?
    ensures k == |Protocol(bits, ps, aw)| - 1
    ensures var r := Run(m, Protocol(bits, ps, aw)[..k]).regs;
            r.prr == m.regs.prr && r.sreg == m.regs.sreg && !r.se
  {
    var t := Protocol(bits, ps, aw);
    ProtocolLayout(bits, ps, aw);
    ProtocolPositions(bits, ps, aw);
    RunPrefixStep(m, t, k);
    assert t[..k + 1] == t;
    RunProtocol(m, bits, ps, aw);
  }

  // The order of the steps.

  /**
   * The power-off steps: PRR is saved and then overwritten; the comparator
   * is disabled exactly when bit 8 is set, and the watchdog is reset, its
   * reset flag handled and then disabled exactly when bit 10 is set, in that
   * order; nothing else happens.
   */
  lemma PowerOffSteps(bits: PowerMode)
    ensures var x := PowerOff(bits);
            var ac := HasFlag(bits, PmAcOff);
            var wdt := HasFlag(bits, PmWdtOff);
            var w := 2 + Once(ac);
            && |x| == w + 3 * Once(wdt)
            && x[0] == SavePrr && x[1] == WritePrr(PrrPart(bits))
            && (forall i :: 2 <= i < |x| ==> IsShutdownStep(x[i]))
            && (forall i :: 2 <= i < |x| ==>
                  && (x[i] == DisableComparator <==> ac && i == 2)
                  && (x[i] == WdtReset <==> wdt && i == w)
                  && (x[i] == KeepWdrf <==> wdt && i == w + 1)
                  && (x[i] == WdtDisable <==> wdt && i == w + 2))
  {
    var ac := HasFlag(bits, PmAcOff);
    var wdt := HasFlag(bits, PmWdtOff);
    ShutdownLayout([SavePrr, WritePrr(PrrPart(bits))], ac, wdt);
  }

  /** In a trace of the shape `Layout`, no step after the shutdown steps is a shutdown step. */
  lemma LayoutTail(t: seq<Event>, v: bv8, p: nat, l: nat, s: nat,
                   ps: Option<HookId>, aw: Option<HookId>, bod: bool, k: nat)
    requires Layout(t, v, p, l, s, ps, aw, bod)
    requires p <= k < |t|
    ensures !IsShutdownStep(t[k])
  {
    if k < l {
      assert t[k] == PreHook(ps.value);
    } else if k < l + 3 {
    } else if k < s - 1 {
      assert t[k] == BodDisable;
    } else if k < s + 4 {
    } else {
      assert t[k] == PostHook(aw.value);
    }
  }

  /** In a trace of the shape `Layout` whose shutdown steps do not repeat, no step repeats. */
  lemma LayoutNoRepeats(t: seq<Event>, v: bv8, p: nat, l: nat, s: nat,
                        ps: Option<HookId>, aw: Option<HookId>, bod: bool)
    requires Layout(t, v, p, l, s, ps, aw, bod)
    requires forall i, j :: 2 <= i < j < p ==> t[i] != t[j]
    ensures forall i, j :: 0 <= i < j < |t| ==> t[i] != t[j]
  {
    forall i, j | 0 <= i < j < |t|
      ensures t[i] != t[j]
    {
      LayoutPositions(t, v, p, l, s, ps, aw, bod, i);
      LayoutPositions(t, v, p, l, s, ps, aw, bod, j);
      if 2 <= i < p <= j {
        assert IsShutdownStep(t[i]);
        LayoutTail(t, v, p, l, s, ps, aw, bod, j);
      }
    }
  }

  /** The comparator and watchdog steps of the power-off part do not repeat. */
  lemma PowerOffNoRepeats(bits: PowerMode)
    ensures var x := PowerOff(bits);
            forall i, j :: 2 <= i < j < |x| ==> x[i] != x[j]
  {
    PowerOffSteps(bits);
  }

  /** Steps `lo .. |x|-1` of a prefix `x` of `t` are steps `lo .. |x|-1` of `t`. */
  lemma PrefixNoRepeats(t: seq<Event>, x: seq<Event>, lo: nat)
    requires |x| <= |t| && t[..|x|] == x
    requires forall i, j :: lo <= i < j < |x| ==> x[i] != x[j]
    ensures forall i, j :: lo <= i < j < |x| ==> t[i] != t[j]
  {
    forall i, j | lo <= i < j < |x|
      ensures t[i] != t[j]
    {
      assert t[..|x|][i] == t[i] && t[..|x|][j] == t[j];
    }
  }

  /** No step of goToSleep happens twice. */
  lemma ProtocolNoRepeats(bits: PowerMode, ps: Option<HookId>, aw: Option<HookId>)
    ensures var t := Protocol(bits, ps, aw);
            forall i, j :: 0 <= i < j < |t| ==> t[i] != t[j]
  {
    var t := Protocol(bits, ps, aw);
    var x := PowerOff(bits);
    ProtocolLayout(bits, ps, aw);
    ProtocolPrefixes(bits, ps, aw);
    PowerOffNoRepeats(bits);
    PrefixNoRepeats(t, x, 2);
    LayoutNoRepeats(t, PrrPart(bits), |x|, HookEnd(bits, ps), SleepIndex(bits, ps),
                    ps, aw, HasFlag(bits, PmBodOff));
  }

  /** In a trace of the shape `Layout` describes, the pre-hook runs before SREG is saved and cli. */
  lemma LayoutHookFirst(t: seq<Event>, v: bv8, p: nat, l: nat, s: nat,
                        ps: Option<HookId>, aw: Option<HookId>, bod: bool)
    requires Layout(t, v, p, l, s, ps, aw, bod)
    ensures forall i, j :: 0 <= i < |t| && 0 <= j < |t| && t[i].PreHook? && t[j] == SaveSreg ==> i < j
    ensures forall i, j :: 0 <= i < |t| && 0 <= j < |t| && t[i].PreHook? && t[j] == Cli ==> i < j
  {
    forall i, j | 0 <= i < |t| && 0 <= j < |t| && t[i].PreHook? && (t[j] == SaveSreg || t[j] == Cli)
      ensures i < j
    {
      LayoutPositions(t, v, p, l, s, ps, aw, bod, i);
      LayoutPositions(t, v, p, l, s, ps, aw, bod, j);
    }
  }

  /** In a trace of the shape `Layout` describes, the steps around sleep_enable are consecutive. */
  lemma LayoutSleepWindow(t: seq<Event>, v: bv8, p: nat, l: nat, s: nat,
                          ps: Option<HookId>, aw: Option<HookId>, bod: bool)
    requires Layout(t, v, p, l, s, ps, aw, bod)
    ensures forall k :: 0 <= k < |t| && t[k] == SleepEnable ==>
              2 <= k && t[k - 2] == SaveSreg && t[k - 1] == Cli
    ensures forall k :: 0 <= k < |t| && t[k] == SleepEnable && bod ==>
              k + 3 < |t| && t[k + 1] == BodDisable && t[k + 2] == Sei && t[k + 3] == SleepCpu
    ensures forall k :: 0 <= k < |t| && t[k] == SleepEnable && !bod ==>
              k + 2 < |t| && t[k + 1] == Sei && t[k + 2] == SleepCpu
  {
    forall k | 0 <= k < |t| && t[k] == SleepEnable
      ensures k == l + 2
    {
      LayoutSleepEnableAt(t, v, p, l, s, ps, aw, bod, k);
    }
  }

  /** In a trace of the shape `Layout` describes, the steps after the sleep instruction are consecutive. */
  lemma LayoutWakeSteps(t: seq<Event>, v: bv8, p: nat, l: nat, s: nat,
                        ps: Option<HookId>, aw: Option<HookId>, bod: bool)
    requires Layout(t, v, p, l, s, ps, aw, bod)
    ensures forall k :: 0 <= k < |t| && t[k] == SleepCpu ==>
              k + 3 < |t| && t[k + 1] == SleepDisable && t[k + 2] == RestorePrr && t[k + 3] == RestoreSreg
    ensures forall k :: 0 <= k < |t| && t[k].PostHook? ==> k == |t| - 1
  {
    forall k | 0 <= k < |t| && t[k] == SleepCpu
      ensures k == s
    {
      LayoutSleepCpuAt(t, v, p, l, s, ps, aw, bod, k);
    }
    forall k | 0 <= k < |t| && t[k].PostHook?
      ensures k == |t| - 1
    {
      LayoutPostHookAt(t, v, p, l, s, ps, aw, bod, k);
    }
  }

  /** The pre-hook runs before SREG is saved and before interrupts are disabled. */
  lemma ProtocolHookFirst(bits: PowerMode, ps: Option<HookId>, aw: Option<HookId>)
    ensures var t := Protocol(bits, ps, aw);
            forall i, j :: 0 <= i < |t| && 0 <= j < |t| && t[i].PreHook? && t[j] == SaveSreg ==> i < j
    ensures var t := Protocol(bits, ps, aw);
            forall i, j :: 0 <= i < |t| && 0 <= j < |t| && t[i].PreHook? && t[j] == Cli ==> i < j
  {
    ProtocolLayout(bits, ps, aw);
    LayoutHookFirst(Protocol(bits, ps, aw), PrrPart(bits), |PowerOff(bits)|, HookEnd(bits, ps),
                    SleepIndex(bits, ps), ps, aw, HasFlag(bits, PmBodOff));
  }

  /** SREG save, cli and sleep_enable are consecutive. */
  lemma ProtocolArmSteps(bits: PowerMode, ps: Option<HookId>, aw: Option<HookId>)
    ensures var t := Protocol(bits, ps, aw);
            forall k :: 0 <= k < |t| && t[k] == SleepEnable ==>
              2 <= k && t[k - 2] == SaveSreg && t[k - 1] == Cli
  {
    ProtocolLayout(bits, ps, aw);
    LayoutSleepWindow(Protocol(bits, ps, aw), PrrPart(bits), |PowerOff(bits)|, HookEnd(bits, ps),
                      SleepIndex(bits, ps), ps, aw, HasFlag(bits, PmBodOff));
  }

  /**
   * sleep_enable is followed, with only the BOD disable (exactly when bit 9
   * is set) in between, by sei and the sleep instruction.
   */
  lemma ProtocolSleepWindow(bits: PowerMode, ps: Option<HookId>, aw: Option<HookId>)
    ensures var t := Protocol(bits, ps, aw);
            forall k :: 0 <= k < |t| && t[k] == SleepEnable && HasFlag(bits, PmBodOff) ==>
              k + 3 < |t| && t[k + 1] == BodDisable && t[k + 2] == Sei && t[k + 3] == SleepCpu
    ensures var t := Protocol(bits, ps, aw);
            forall k :: 0 <= k < |t| && t[k] == SleepEnable && !HasFlag(bits, PmBodOff) ==>
              k + 2 < |t| && t[k + 1] == Sei && t[k + 2] == SleepCpu
  {
    ProtocolLayout(bits, ps, aw);
    LayoutSleepWindow(Protocol(bits, ps, aw), PrrPart(bits), |PowerOff(bits)|, HookEnd(bits, ps),
                      SleepIndex(bits, ps), ps, aw, HasFlag(bits, PmBodOff));
  }

  /**
   * After the sleep instruction come sleep_disable and the PRR and SREG
   * restores, and the post-hook is the last step.
   */
  lemma ProtocolWakeSteps(bits: PowerMode, ps: Option<HookId>, aw: Option<HookId>)
    ensures var t := Protocol(bits, ps, aw);
            forall k :: 0 <= k < |t| && t[k] == SleepCpu ==>
              k + 3 < |t| && t[k + 1] == SleepDisable && t[k + 2] == RestorePrr && t[k + 3] == RestoreSreg
    ensures var t := Protocol(bits, ps, aw);
            forall k :: 0 <= k < |t| && t[k].PostHook? ==> k == |t| - 1
  {
    ProtocolLayout(bits, ps, aw);
    LayoutWakeSteps(Protocol(bits, ps, aw), PrrPart(bits), |PowerOff(bits)|, HookEnd(bits, ps),
                    SleepIndex(bits, ps), ps, aw, HasFlag(bits, PmBodOff));
  }

  /** A hook runs exactly when it is attached: the pre-hook `ps` and the post-hook `aw`. */
  lemma ProtocolHooks(bits: PowerMode, ps: Option<HookId>, aw: Option<HookId>)
    ensures var t := Protocol(bits, ps, aw);
            && (forall h: HookId :: PreHook(h) in t <==> ps == Some(h))
            && (forall h: HookId :: PostHook(h) in t <==> aw == Some(h))
  {
    var t := Protocol(bits, ps, aw);
    ProtocolLayout(bits, ps, aw);
    ProtocolPositions(bits, ps, aw);
    forall h: HookId
      ensures PreHook(h) in t <==> ps == Some(h)
      ensures PostHook(h) in t <==> aw == Some(h)
    {
      if PreHook(h) in t {
        var k :| 0 <= k < |t| && t[k] == PreHook(h);
      }
      if PostHook(h) in t {
        var k :| 0 <= k < |t| && t[k] == PostHook(h);
      }
    }
  }
}
