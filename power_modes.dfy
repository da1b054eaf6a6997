/**
 * The enumerations of AVR_sleep.h: the six sleep modes of the ATmega328P
 * and the 16-bit power-off flags (`powerMode_t`).  The low byte of a
 * power-off value is written verbatim to the Power Reduction Register
 * (PRR); the analog comparator, brown-out detector and watchdog have no
 * PRR bit and are named by a BIT POSITION (8, 9, 10) in the high byte.
 */
module PowerModes {

  /** `sleepMode_t`: a closed set of exactly six modes. */
  datatype SleepMode =
    | Idle
    | AdcNoiseReduction
    | PowerDown
    | PowerSave
    | Standby
    | ExtendedStandby

  /** `powerMode_t` is a `uint16_t`. */
  type PowerMode = bv16

  // Power-off flags that map onto PRR bits (bit numbers of the ATmega328P PRR).
  const PmNone: PowerMode := 0
  const PmTwiOff: PowerMode := 1 << 7
  const PmTimer2Off: PowerMode := 1 << 6
  const PmTimer0Off: PowerMode := 1 << 5
  const PmTimer1Off: PowerMode := 1 << 3
  const PmSpiOff: PowerMode := 1 << 2
  const PmUsartOff: PowerMode := 1 << 1
  const PmAdcOff: PowerMode := 1 << 0
  /** "All PRR off": 0b11101111 -- bit 4 is reserved in PRR. */
  const PmPrrOff: PowerMode := 0xEF

  // Flags with no PRR bit: these are bit POSITIONS, tested as `1 << n`.
  const PmAcOff: PowerMode := 8
  const PmBodOff: PowerMode := 9
  const PmWdtOff: PowerMode := 10
  const PmEverythingOff: PowerMode := 0x07EF

  /** The peripherals that have a bit in PRR. */
  datatype PrrPeripheral = Twi | Timer2 | Timer0 | Timer1 | Spi | Usart0 | Adc

  /** The PRR bit number of each peripheral (PRTWI, PRTIM2, ... , PRADC). */
  function PrrBit(p: PrrPeripheral): (n: nat)
    ensures n < 8 && n != 4
  {
    match p
    case Twi => 7
    case Timer2 => 6
    case Timer0 => 5
    case Timer1 => 3
    case Spi => 2
    case Usart0 => 1
    case Adc => 0
  }

  /** The power-off enumerator that names each PRR peripheral. */
  function PowerOffFlag(p: PrrPeripheral): (f: PowerMode)
    ensures f == 1 << PrrBit(p)
    ensures f != 0 && f & 0xFF00 == 0
  {
    match p
    case Twi => PmTwiOff
    case Timer2 => PmTimer2Off
    case Timer0 => PmTimer0Off
    case Timer1 => PmTimer1Off
    case Spi => PmSpiOff
    case Usart0 => PmUsartOff
    case Adc => PmAdcOff
  }

  /** The part of a power-off value that is written to PRR: `bits & 0x00ff`. */
  function PrrPart(bits: PowerMode): bv8
  {
    (bits & 0x00FF) as bv8
  }

  /**
   * A power-off value splits into the byte written to PRR and its high
   * byte: nothing of the high byte reaches PRR and nothing of the low byte is lost.
   */
  lemma PrrPartIsLowByte(bits: PowerMode)
    ensures (PrrPart(bits) as PowerMode) | (bits & 0xFF00) == bits
    ensures (PrrPart(bits) as PowerMode) & 0xFF00 == 0
  {
  }

  /** `bits & (1 << position)`, the test goToSleep applies to the high-byte flags. */
  predicate HasFlag(bits: PowerMode, position: PowerMode)
    requires position < 16
  {
    bits & (1 << position) != 0
  }

  /** The three high-byte tests look at the masks 0x0100, 0x0200 and 0x0400 and nothing else. */
  lemma HighByteTests(bits: PowerMode)
    ensures HasFlag(bits, PmAcOff) <==> bits & 0x0100 != 0
    ensures HasFlag(bits, PmBodOff) <==> bits & 0x0200 != 0
    ensures HasFlag(bits, PmWdtOff) <==> bits & 0x0400 != 0
  {
  }

  /**
   * Two different PRR peripherals never share a bit: their power-off
   * flags are disjoint and their PRR bit numbers differ.
   */
  lemma PrrFlagsAreDistinctLowBits()
    ensures forall p: PrrPeripheral, q: PrrPeripheral ::
      p != q ==> PowerOffFlag(p) & PowerOffFlag(q) == 0 && PrrBit(p) != PrrBit(q)
    ensures PmNone == 0
  {
  }

  /**
   * PM_PRR_OFF is exactly the union of the seven PRR flags: every one of
   * them is in it, and the reserved PRR bit 4 is not.
   */
  lemma PrrOffIsUnionOfPrrFlags()
    ensures PmPrrOff == PmTwiOff | PmTimer2Off | PmTimer0Off | PmTimer1Off
                        | PmSpiOff | PmUsartOff | PmAdcOff
    ensures forall p: PrrPeripheral :: PmPrrOff & PowerOffFlag(p) == PowerOffFlag(p)
    ensures PmPrrOff & (1 << 4) == 0 && PmPrrOff & 0xFF00 == 0
  {
  }

  /**
   * The high-byte flags are bit positions 8, 9 and 10; their masks have a
   * zero low byte, so they can never reach PRR, whatever they are combined with.
   */
  lemma HighByteFlagsNeverReachPrr(bits: PowerMode)
    ensures PmAcOff == 8 && PmBodOff == 9 && PmWdtOff == 10
    ensures PrrPart(1 << PmAcOff) == 0 && PrrPart(1 << PmBodOff) == 0 && PrrPart(1 << PmWdtOff) == 0
    ensures PrrPart(bits | (1 << PmAcOff) | (1 << PmBodOff) | (1 << PmWdtOff)) == PrrPart(bits)
  {
  }

  /** PM_EVERYTHING_OFF is PM_PRR_OFF together with the three high-byte flags. */
  lemma EverythingOffIsPrrOffAndHighFlags()
    ensures PmEverythingOff == PmPrrOff | (1 << PmAcOff) | (1 << PmBodOff) | (1 << PmWdtOff)
    ensures PrrPart(PmEverythingOff) == PrrPart(PmPrrOff) == 0xEF
    ensures HasFlag(PmEverythingOff, PmAcOff) && HasFlag(PmEverythingOff, PmBodOff)
            && HasFlag(PmEverythingOff, PmWdtOff)
  {
  }

  /**
   * PM_AC_OFF and PM_TIMER1_OFF are the same number.  Used as a mask,
   * PM_AC_OFF sets PRR bit 3 (Timer 1) and not the comparator flag, which
   * is bit 8 of the value.
   */
  lemma AcOffAsMaskIsTimer1(bits: PowerMode)
    ensures PmAcOff == PmTimer1Off == PowerOffFlag(Timer1)
    ensures PrrPart(PmAcOff) == 1 << PrrBit(Timer1)
    ensures !HasFlag(PmAcOff, PmAcOff)
    ensures HasFlag(bits | PmAcOff, PmAcOff) == HasFlag(bits, PmAcOff)
  {
  }

  /** The six sleep modes of the ATmega328P. */
  const AllSleepModes: set<SleepMode> :=
    {Idle, AdcNoiseReduction, PowerDown, PowerSave, Standby, ExtendedStandby}

  /** The sleep-mode type is closed: every value is one of exactly six modes. */
  lemma SleepModesAreSix()
    ensures forall m: SleepMode :: m in AllSleepModes
    ensures |AllSleepModes| == 6
  {
    forall m: SleepMode ensures m in AllSleepModes {
      match m
      case Idle =>
      case AdcNoiseReduction =>
      case PowerDown =>
      case PowerSave =>
      case Standby =>
      case ExtendedStandby =>
    }
  }
}
