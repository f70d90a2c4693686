/**
 * Power sequencing of the node (power_manager.h): switching the external
 * rail, powering a peripheral off, preparing pin retention, and entering
 * timed deep sleep with every peripheral pin floated.
 *
 * The hardware is the recorded state of the GPIO matrix (mode and level
 * per pin), the set of held pins, the deep-sleep hold switch, the wake
 * timer, and an ordered trace of every hardware call.  Electrical effects
 * and the restart on wake are not modelled.
 */
module Power {
  import opened Config

  /** One call into the hardware layer, in the order it was made. */
  datatype Step =
    | RadioSleep
    | Delay(ms: int)
    | PinMode(pin: int, mode: Mode)
    | DigitalWrite(pin: int, level: Level)
    | SpiEnd
    | GpioHold(pin: int)
    | DeepSleepHold
    | TimerWakeup(us: nat)
    | DeepSleepStart

  const UInt64Modulus: int := 0x1_0000_0000_0000_0000
  const Int32Modulus: int := 0x1_0000_0000

  /** The first seven `pinMode` calls `goToSleep` makes: the ADC control pin and the LoRa pins. */
  const RadioSleepPins: seq<Step> := [
    PinMode(37, Input),        // ADC_CTRL
    PinMode(9, Input),         // LoRa SCK
    PinMode(14, InputPullup),  // LoRa RST
    PinMode(8, InputPullup),   // LoRa NSS
    PinMode(11, Input),        // LoRa MISO
    PinMode(12, Input),        // LoRa DIO1
    PinMode(10, Input)         // LoRa MOSI
  ]

  /** The last seven: the I2C and I2S pins and the SDS011 serial pins. */
  const BusSleepPins: seq<Step> := [
    PinMode(41, Input),        // I2C SDA
    PinMode(42, Input),        // I2C SCL
    PinMode(39, Input),        // I2S SCK
    PinMode(38, Input),        // I2S WS
    PinMode(40, Input),        // I2S SD
    PinMode(TxPin, Input),     // SDS011 TX
    PinMode(RxPin, Input)      // SDS011 RX
  ]

  /** The `pinMode` calls `goToSleep` makes to float the peripheral pins, in program order. */
  const SleepPinTable: seq<Step> := RadioSleepPins + BusSleepPins

  /** The mode `goToSleep` gives a pin, if the pin is in its table. */
  function SleepModeOf(pin: int): Option<Mode>
  {
    if pin == 14 || pin == 8 then Some(InputPullup)
    else if pin in {37, 9, 11, 12, 10, 41, 42, 39, 38, 40, TxPin, RxPin} then Some(Input)
    else None
  }

  /**
   * The table lists 14 distinct pins, each with the mode `SleepModeOf` gives
   * it, and every pin `SleepModeOf` names is in the table; neither Vext nor
   * the SDS011 power pin is among them.
   */
  lemma SleepPinTableShape()
    ensures |SleepPinTable| == 14
    ensures forall i :: 0 <= i < 14 ==> SleepPinTable[i].PinMode?
    ensures forall i :: 0 <= i < 14 ==> SleepModeOf(SleepPinTable[i].pin) == Some(SleepPinTable[i].mode)
    ensures forall i, j :: 0 <= i < j < 14 ==> SleepPinTable[i].pin != SleepPinTable[j].pin
    ensures forall p :: SleepModeOf(p).Some? ==> exists i :: 0 <= i < 14 && SleepPinTable[i].pin == p
    ensures forall p :: SleepModeOf(p) != Some(Output)
    ensures SleepModeOf(Vext) == None && SleepModeOf(PowerPin) == None
  {
    var t := SleepPinTable;
    forall p | SleepModeOf(p).Some? ensures exists i :: 0 <= i < 14 && t[i].pin == p {
      var i := if p == 37 then 0 else if p == 9 then 1 else if p == 14 then 2 else if p == 8 then 3
               else if p == 11 then 4 else if p == 12 then 5 else if p == 10 then 6 else if p == 41 then 7
               else if p == 42 then 8 else if p == 39 then 9 else if p == 38 then 10 else if p == 40 then 11
               else if p == 4 then 12 else 13;
      assert t[i].pin == p;
    }
  }

  /** Two's-complement truncation of a C `int` computation to 32 bits. */
  function ToInt32(x: int): (r: int32)
    ensures (r - x) % Int32Modulus == 0
    ensures -0x8000_0000 <= x < 0x8000_0000 ==> r == x
  {
    var m := (x + 0x8000_0000) % Int32Modulus;
    assert -0x8000_0000 <= x < 0x8000_0000 ==> m == x + 0x8000_0000;
    m - 0x8000_0000
  }

  /**
   * The argument of `esp_sleep_enable_timer_wakeup`: `sleepSeconds * 1000000`
   * computed in 32-bit `int`, then converted to `uint64_t`.  It is the true
   * number of microseconds exactly when 0 <= sleepSeconds <= 2147.
   */
  function WakeTimerArgument(sleepSeconds: int32): (us: nat)
    ensures us < UInt64Modulus
    ensures us == sleepSeconds * 1000000 <==> 0 <= sleepSeconds <= 2147
  {
    var product := ToInt32(sleepSeconds * 1000000);
    WakeTimerInRange(sleepSeconds, product);
    product % UInt64Modulus
  }

  lemma WakeTimerInRange(s: int32, product: int32)
    requires product == ToInt32(s * 1000000)
    ensures product % UInt64Modulus == s * 1000000 <==> 0 <= s <= 2147
  {
    var x := s * 1000000;
    if 0 <= s <= 2147 {
      assert 0 <= x < 0x8000_0000;
      assert product == x;
    } else if product >= 0 {
      assert product % UInt64Modulus == product;
    } else {
      var u := product % UInt64Modulus;
      assert u == product + UInt64Modulus;
      assert x < 0x8000_0000 * 1000000;
    }
  }

  /** The configured interval (`TIME_TO_SLEEP`) arms the timer with its exact length: five million microseconds. */
  lemma ConfiguredSleepIsExact()
    ensures WakeTimerArgument(TimeToSleep) == 5000000
  {
  }

  /** The mode the last `pinMode` call for `pin` in `steps` gave it, if there was one. */
  function LastModeIn(steps: seq<Step>, pin: int): Option<Mode>
    decreases |steps|
  {
    if steps == [] then None
    else
      var last := steps[|steps| - 1];
      if last.PinMode? && last.pin == pin then Some(last.mode)
      else LastModeIn(steps[..|steps| - 1], pin)
  }

  /** The pin-mode map after the `pinMode` calls among `steps` are applied to `modes`, in order. */
  function ApplyModes(modes: map<int, Mode>, steps: seq<Step>): (r: map<int, Mode>)
    ensures modes.Keys <= r.Keys
    ensures (forall i :: 0 <= i < |steps| ==> !steps[i].PinMode?) ==> r == modes
    decreases |steps|
  {
    if steps == [] then modes
    else
      var before := ApplyModes(modes, steps[..|steps| - 1]);
      var last := steps[|steps| - 1];
      if last.PinMode? then before[last.pin := last.mode] else before
  }

  /**
   * `LastModeIn` finds the last `pinMode` call for the pin: it is None exactly
   * when no call names the pin, and otherwise names a call with that mode
   * that no later call for the same pin overrides.
   */
  lemma {:induction false} LastModeInSpec(steps: seq<Step>, pin: int)
    ensures LastModeIn(steps, pin).None? <==>
              forall i :: 0 <= i < |steps| && steps[i].PinMode? ==> steps[i].pin != pin
    ensures LastModeIn(steps, pin).Some? ==>
              exists i :: 0 <= i < |steps| && steps[i] == PinMode(pin, LastModeIn(steps, pin).value) &&
                forall j :: i < j < |steps| && steps[j].PinMode? ==> steps[j].pin != pin
    decreases |steps|
  {
    if steps != [] {
      var init := steps[..|steps| - 1];
      var n := |steps| - 1;
      LastModeInSpec(init, pin);
      assert forall i :: 0 <= i < n ==> init[i] == steps[i];
      if !(steps[n].PinMode? && steps[n].pin == pin) && LastModeIn(init, pin).Some? {
        var i :| 0 <= i < n && init[i] == PinMode(pin, LastModeIn(init, pin).value) &&
                 forall j :: i < j < n && init[j].PinMode? ==> init[j].pin != pin;
        assert steps[i] == PinMode(pin, LastModeIn(steps, pin).value);
      }
    }
  }

  /** Appending steps: the last call for a pin is in the suffix if the suffix has one. */
  lemma {:induction false} LastModeInAppend(a: seq<Step>, b: seq<Step>, pin: int)
    ensures LastModeIn(a + b, pin) == if LastModeIn(b, pin).Some? then LastModeIn(b, pin) else LastModeIn(a, pin)
    decreases |b|
  {
    if b == [] {
      assert a + b == a;
    } else {
      assert (a + b)[..|a + b| - 1] == a + b[..|b| - 1];
      LastModeInAppend(a, b[..|b| - 1], pin);
    }
  }

  /** Applying two runs of steps one after the other is applying their concatenation. */
  lemma {:induction false} ApplyModesAppend(modes: map<int, Mode>, a: seq<Step>, b: seq<Step>)
    ensures ApplyModes(modes, a + b) == ApplyModes(ApplyModes(modes, a), b)
    decreases |b|
  {
    if b == [] {
      assert a + b == a;
    } else {
      assert (a + b)[..|a + b| - 1] == a + b[..|b| - 1];
      ApplyModesAppend(modes, a, b[..|b| - 1]);
    }
  }

  /**
   * The last `pinMode` call wins: after `steps`, a pin has a mode exactly when
   * it had one before or some call named it, and that mode is the one the last
   * call for it gave, or the old one when no call named it.
   */
  lemma {:induction false} ApplyModesLastWins(modes: map<int, Mode>, steps: seq<Step>, pin: int)
    ensures pin in ApplyModes(modes, steps) <==> pin in modes || LastModeIn(steps, pin).Some?
    ensures pin in ApplyModes(modes, steps) ==>
              ApplyModes(modes, steps)[pin] == if LastModeIn(steps, pin).Some? then LastModeIn(steps, pin).value
                                               else modes[pin]
    decreases |steps|
  {
    if steps != [] {
      ApplyModesLastWins(modes, steps[..|steps| - 1], pin);
    }
  }

  /** The sleep table's own `pinMode` calls give each pin exactly the mode `SleepModeOf` names. */
  lemma SleepTableModes(pin: int)
    ensures LastModeIn(SleepPinTable, pin) == SleepModeOf(pin)
  {
    var t := SleepPinTable;
    SleepPinTableShape();
    LastModeInSpec(t, pin);
    if LastModeIn(t, pin).Some? {
      var i :| 0 <= i < |t| && t[i] == PinMode(pin, LastModeIn(t, pin).value) &&
               forall j :: i < j < |t| && t[j].PinMode? ==> t[j].pin != pin;
      assert SleepModeOf(t[i].pin) == Some(t[i].mode);
    }
  }

  /** Replaying one more step of a run. */
  lemma ApplyModesStep(modes: map<int, Mode>, steps: seq<Step>, k: int)
    requires 0 <= k < |steps|
    ensures ApplyModes(modes, steps[..k + 1]) ==
              if steps[k].PinMode? then ApplyModes(modes, steps[..k])[steps[k].pin := steps[k].mode]
              else ApplyModes(modes, steps[..k])
  {
    assert steps[..k + 1][..k] == steps[..k];
  }

  /** Replaying the first half of the sleep table is the seven `pinMode` updates in order. */
  lemma RadioSleepReplay(modes: map<int, Mode>)
    ensures ApplyModes(modes, RadioSleepPins) ==
              modes[37 := Input][9 := Input][14 := InputPullup][8 := InputPullup][11 := Input][12 := Input][10 := Input]
  {
    var s := RadioSleepPins;
    assert s[..0] == [];
    ApplyModesStep(modes, s, 0);
    ApplyModesStep(modes, s, 1);
    ApplyModesStep(modes, s, 2);
    ApplyModesStep(modes, s, 3);
    ApplyModesStep(modes, s, 4);
    ApplyModesStep(modes, s, 5);
    ApplyModesStep(modes, s, 6);
    assert s[..7] == s;
  }

  /** Replaying the second half of the sleep table is the seven `pinMode` updates in order. */
  lemma BusSleepReplay(modes: map<int, Mode>)
    ensures ApplyModes(modes, BusSleepPins) ==
              modes[41 := Input][42 := Input][39 := Input][38 := Input][40 := Input][TxPin := Input][RxPin := Input]
  {
    var s := BusSleepPins;
    assert s[..0] == [];
    ApplyModesStep(modes, s, 0);
    ApplyModesStep(modes, s, 1);
    ApplyModesStep(modes, s, 2);
    ApplyModesStep(modes, s, 3);
    ApplyModesStep(modes, s, 4);
    ApplyModesStep(modes, s, 5);
    ApplyModesStep(modes, s, 6);
    assert s[..7] == s;
  }

  /** The calls `goToSleep` makes before floating the pins: radio asleep, a 100 ms wait, rail off. */
  const SleepEntrySteps: seq<Step> := [RadioSleep, Delay(100), PinMode(Vext, Output), DigitalWrite(Vext, High)]

  /** The calls `goToSleep` makes after floating the pins: arm the wake timer, then sleep. */
  function SleepArmSteps(sleepSeconds: int32): seq<Step>
  {
    [TimerWakeup(WakeTimerArgument(sleepSeconds)), DeepSleepStart]
  }

  /** The hardware calls `goToSleep` makes, in order; deep sleep is started last and only then. */
  function GoToSleepSteps(sleepSeconds: int32): (steps: seq<Step>)
    ensures |steps| == 20
    ensures steps[0] == RadioSleep
    ensures steps[2..4] == [PinMode(Vext, Output), DigitalWrite(Vext, High)]
    ensures steps[4..18] == SleepPinTable
    ensures steps[18] == TimerWakeup(WakeTimerArgument(sleepSeconds))
    ensures steps[19] == DeepSleepStart
    ensures forall i :: 0 <= i < 19 ==> steps[i] != DeepSleepStart
  {
    SleepEntrySteps + SleepPinTable + SleepArmSteps(sleepSeconds)
  }

  /** Of `goToSleep`'s calls, only the Vext `pinMode` and the sleep table change pin modes. */
  lemma GoToSleepReplay(modes: map<int, Mode>, sleepSeconds: int32)
    ensures ApplyModes(modes, GoToSleepSteps(sleepSeconds)) == ApplyModes(modes[Vext := Output], SleepPinTable)
  {
    var front := [RadioSleep, Delay(100), PinMode(Vext, Output), DigitalWrite(Vext, High)];
    var back := [TimerWakeup(WakeTimerArgument(sleepSeconds)), DeepSleepStart];
    assert GoToSleepSteps(sleepSeconds) == (front + SleepPinTable) + back;
    assert front[..0] == [];
    ApplyModesStep(modes, front, 0);
    ApplyModesStep(modes, front, 1);
    ApplyModesStep(modes, front, 2);
    ApplyModesStep(modes, front, 3);
    assert front[..4] == front;
    var mid := ApplyModes(modes, front + SleepPinTable);
    assert back[..0] == [];
    ApplyModesStep(mid, back, 0);
    ApplyModesStep(mid, back, 1);
    assert back[..2] == back;
    ApplyModesAppend(modes, front + SleepPinTable, back);
    ApplyModesAppend(modes, front, SleepPinTable);
  }

  /**
   * After `goToSleep`'s calls, every table pin has its sleep mode, Vext is an
   * output, and every other pin keeps the mode it had.
   */
  lemma GoToSleepModes(modes: map<int, Mode>, sleepSeconds: int32, pin: int)
    ensures pin in ApplyModes(modes, GoToSleepSteps(sleepSeconds)) <==>
              pin in modes || pin == Vext || SleepModeOf(pin).Some?
    ensures pin in ApplyModes(modes, GoToSleepSteps(sleepSeconds)) ==>
              ApplyModes(modes, GoToSleepSteps(sleepSeconds))[pin] ==
                if SleepModeOf(pin).Some? then SleepModeOf(pin).value
                else if pin == Vext then Output else modes[pin]
  {
    var front := [RadioSleep, Delay(100), PinMode(Vext, Output), DigitalWrite(Vext, High)];
    var back := [TimerWakeup(WakeTimerArgument(sleepSeconds)), DeepSleepStart];
    assert GoToSleepSteps(sleepSeconds) == (front + SleepPinTable) + back;
    LastModeInAppend(front + SleepPinTable, back, pin);
    LastModeInAppend(front, SleepPinTable, pin);
    SleepTableModes(pin);
    LastModeInSpec(back, pin);
    LastModeInSpec(front, pin);
    ApplyModesLastWins(modes, GoToSleepSteps(sleepSeconds), pin);
  }

  /** The recorded state of the board's power-relevant hardware. */
  class Hardware {
    var modes: map<int, Mode>
    var levels: map<int, Level>
    var held: set<int>
    var deepSleepHold: bool
    var wakeTimerUs: nat
    var sleeping: bool
    var trace: seq<Step>

    /** A board fresh out of reset: nothing configured, held or armed. */
    constructor ()
      ensures modes == map[] && levels == map[] && held == {}
      ensures !deepSleepHold && wakeTimerUs == 0 && !sleeping && trace == []
    {
      modes, levels, held := map[], map[], {};
      deepSleepHold, wakeTimerUs, sleeping := false, 0, false;
      trace := [];
    }

    // --- hardware primitives --------------------------------------------

    method SetPinMode(pin: int, mode: Mode)
      modifies this`modes, this`trace
      ensures modes == old(modes)[pin := mode]
      ensures trace == old(trace) + [PinMode(pin, mode)]
    {
      modes := modes[pin := mode];
      trace := trace + [PinMode(pin, mode)];
    }

    method DigitalWritePin(pin: int, level: Level)
      modifies this`levels, this`trace
      ensures levels == old(levels)[pin := level]
      ensures trace == old(trace) + [DigitalWrite(pin, level)]
    {
      levels := levels[pin := level];
      trace := trace + [DigitalWrite(pin, level)];
    }

    /** A call that changes none of the recorded pin state: radio sleep, delay, SPI end. */
    method Record(step: Step)
      requires step.RadioSleep? || step.Delay? || step.SpiEnd?
      modifies this`trace
      ensures trace == old(trace) + [step]
    {
      trace := trace + [step];
    }

    method GpioHoldEn(pin: int)
      modifies this`held, this`trace
      ensures held == old(held) + {pin}
      ensures trace == old(trace) + [GpioHold(pin)]
    {
      held := held + {pin};
      trace := trace + [GpioHold(pin)];
    }

    method GpioDeepSleepHoldEn()
      modifies this`deepSleepHold, this`trace
      ensures deepSleepHold
      ensures trace == old(trace) + [DeepSleepHold]
    {
      deepSleepHold := true;
      trace := trace + [DeepSleepHold];
    }

    method EnableTimerWakeup(us: nat)
      modifies this`wakeTimerUs, this`trace
      ensures wakeTimerUs == us
      ensures trace == old(trace) + [TimerWakeup(us)]
    {
      wakeTimerUs := us;
      trace := trace + [TimerWakeup(us)];
    }

    method StartDeepSleep()
      modifies this`sleeping, this`trace
      ensures sleeping
      ensures trace == old(trace) + [DeepSleepStart]
    {
      sleeping := true;
      trace := trace + [DeepSleepStart];
    }

    // --- power_manager.h --------------------------------------------------

    /** Turns the external rail on: Vext is an output driven LOW (the rail is active-low). */
    method VextOn()
      modifies this`modes, this`levels, this`trace
      ensures modes == old(modes)[Vext := Output] && levels == old(levels)[Vext := Low]
      ensures trace == old(trace) + [PinMode(Vext, Output), DigitalWrite(Vext, Low)]
    {
      SetPinMode(Vext, Output);
      DigitalWritePin(Vext, Low);
    }

    /** Turns the external rail off: Vext is an output driven HIGH. */
    method VextOff()
      modifies this`modes, this`levels, this`trace
      ensures modes == old(modes)[Vext := Output] && levels == old(levels)[Vext := High]
      ensures trace == old(trace) + [PinMode(Vext, Output), DigitalWrite(Vext, High)]
    {
      SetPinMode(Vext, Output);
      DigitalWritePin(Vext, High);
    }

    /** Powers a peripheral off: its pin becomes an output driven LOW. */
    method PowerOff(powerPin: int)
      modifies this`modes, this`levels, this`trace
      ensures modes == old(modes)[powerPin := Output] && levels == old(levels)[powerPin := Low]
      ensures trace == old(trace) + [PinMode(powerPin, Output), DigitalWrite(powerPin, Low)]
    {
      SetPinMode(powerPin, Output);
      DigitalWritePin(powerPin, Low);
    }

    /**
     * Rail off, peripheral off, radio asleep, SPI ended, then the
     * peripheral's pin held and the deep-sleep hold switched on.
     */
    method PrepareDeepSleep(powerPin: int)
      modifies this`modes, this`levels, this`held, this`deepSleepHold, this`trace
      ensures modes == old(modes)[Vext := Output][powerPin := Output]
      ensures levels == old(levels)[Vext := High][powerPin := Low]
      ensures powerPin != Vext ==> levels[Vext] == High
      ensures held == old(held) + {powerPin} && deepSleepHold
      ensures trace == old(trace) + [PinMode(Vext, Output), DigitalWrite(Vext, High),
                                     PinMode(powerPin, Output), DigitalWrite(powerPin, Low),
                                     RadioSleep, SpiEnd, GpioHold(powerPin), DeepSleepHold]
    {
      VextOff();
      PowerOff(powerPin);
      Record(RadioSleep);
      Record(SpiEnd);
      GpioHoldEn(powerPin);
      GpioDeepSleepHoldEn();
    }

    /**
     * Radio asleep, rail off, the 14 table pins floated, the wake timer
     * armed with `WakeTimerArgument(sleepSeconds)`, then deep sleep; the
     * resulting pin modes are spelled out by `GoToSleepModes`.
     */
    method GoToSleep(sleepSeconds: int32)
      modifies this`modes, this`levels, this`wakeTimerUs, this`sleeping, this`trace
      ensures modes == ApplyModes(old(modes), GoToSleepSteps(sleepSeconds))
      ensures levels == old(levels)[Vext := High]
      ensures wakeTimerUs == WakeTimerArgument(sleepSeconds) && sleeping
      ensures trace == old(trace) + GoToSleepSteps(sleepSeconds)
    {
      EnterSleep();
      FloatSleepPins();
      ArmAndSleep(WakeTimerArgument(sleepSeconds));
      assert trace == old(trace) + (SleepEntrySteps + SleepPinTable + SleepArmSteps(sleepSeconds));
      GoToSleepReplay(old(modes), sleepSeconds);
    }

    /** The start of `goToSleep`: radio asleep, a 100 ms wait, then the rail off. */
    method EnterSleep()
      modifies this`modes, this`levels, this`trace
      ensures modes == old(modes)[Vext := Output] && levels == old(levels)[Vext := High]
      ensures trace == old(trace) + SleepEntrySteps
    {
      Record(RadioSleep);
      Record(Delay(100));
      VextOff();
    }

    /** The end of `goToSleep`: the wake timer armed with `us`, then deep sleep. */
    method ArmAndSleep(us: nat)
      modifies this`wakeTimerUs, this`sleeping, this`trace
      ensures wakeTimerUs == us && sleeping
      ensures trace == old(trace) + [TimerWakeup(us), DeepSleepStart]
    {
      EnableTimerWakeup(us);
      StartDeepSleep();
    }

    /** The 14 `pinMode` calls of `goToSleep`, in program order. */
    method FloatSleepPins()
      modifies this`modes, this`trace
      ensures modes == ApplyModes(old(modes), SleepPinTable)
      ensures trace == old(trace) + SleepPinTable
    {
      ghost var before := modes;
      FloatRadioPins();
      ghost var between := modes;
      FloatBusPins();
      RadioSleepReplay(before);
      BusSleepReplay(between);
      ApplyModesAppend(before, RadioSleepPins, BusSleepPins);
    }

    method FloatRadioPins()
      modifies this`modes, this`trace
      ensures modes == old(modes)[37 := Input][9 := Input][14 := InputPullup][8 := InputPullup]
                                 [11 := Input][12 := Input][10 := Input]
      ensures trace == old(trace) + RadioSleepPins
    {
      SetPinMode(37, Input);
      SetPinMode(9, Input);
      SetPinMode(14, InputPullup);
      SetPinMode(8, InputPullup);
      SetPinMode(11, Input);
      SetPinMode(12, Input);
      SetPinMode(10, Input);
    }

    method FloatBusPins()
      modifies this`modes, this`trace
      ensures modes == old(modes)[41 := Input][42 := Input][39 := Input][38 := Input]
                                 [40 := Input][TxPin := Input][RxPin := Input]
      ensures trace == old(trace) + BusSleepPins
    {
      SetPinMode(41, Input);
      SetPinMode(42, Input);
      SetPinMode(39, Input);
      SetPinMode(38, Input);
      SetPinMode(40, Input);
      SetPinMode(TxPin, Input);
      SetPinMode(RxPin, Input);
    }
  }
}
