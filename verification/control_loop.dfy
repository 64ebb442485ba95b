/** One iteration of the main sensing loop: read the PIR line, pulse the
    ultrasonic trigger and sample the echo line, read the light level from
    the ADC, then drive the three indicator LEDs. The loop body is modelled
    as a pure function from the ODR word before the iteration, the two IDR
    words it reads and the ADC data register to the ODR word after it.

    The busy-wait `delay` calls and the spin on the ADC end-of-conversion
    flag have no effect on these words and are not modelled; the ADC data
    register value is an input. */
module ControlLoop {
  import opened Registers
  import opened Pins

  /** `threshold`: light samples at or below it count as dark. */
  const Threshold: int := 1024

  /** `adcData = ADC1->DR`: the 32-bit register read into a C `int`. The
      compiler for this target keeps the bit pattern, so values from 2^31 up
      become negative. The result lies in the range of a 32-bit `int`, is
      negative exactly when the top bit is set, and keeps the value modulo
      2^32. */
  function AsCInt(dr: bv32): (v: int)
    ensures -0x8000_0000 <= v < 0x8000_0000
    ensures v < 0 <==> dr as int >= 0x8000_0000
    ensures v == dr as int || v + 0x1_0000_0000 == dr as int
  {
    if dr as int < 0x8000_0000 then dr as int else dr as int - 0x1_0000_0000
  }

  /** A right-aligned 12-bit conversion result, which is what ADC1 delivers
      with CR1 and CR2 cleared. */
  predicate IsSample(dr: bv32)
  {
    dr < 0x1000
  }

  /** The light test of the loop, `adcData <= threshold`: on a 12-bit
      sample it is the plain comparison of the sample with the threshold. */
  predicate Dark(dr: bv32): (b: bool)
    ensures IsSample(dr) ==> (b <==> dr as int <= Threshold)
  {
    AsCInt(dr) <= Threshold
  }

  /** What one iteration reads from the hardware: IDR as sampled for the PIR
      test, IDR as sampled for the echo test (after the trigger pulse), and
      the ADC data register. */
  datatype Sensors = Sensors(idrAtMotion: bv32, idrAtEcho: bv32, dr: bv32)

  /** The three detections of one iteration. */
  datatype Readings = Readings(motion: bool, obstacle: bool, dark: bool)

  /** The three tests of the loop: the C tests `IDR & (1U << 3)` and
      `IDR & (1U << 5)` on the two IDR words, and the light test, which
      on a 12-bit sample is `sample <= 1024`. */
  function Acquire(s: Sensors): (rd: Readings)
    ensures rd.motion <==> s.idrAtMotion & Mask(Line(Motion)) != 0
    ensures rd.obstacle <==> s.idrAtEcho & Mask(Line(Echo)) != 0
    ensures IsSample(s.dr) ==> (rd.dark <==> s.dr as int <= Threshold)
  {
    MaskTestIsBit(s.idrAtMotion, Line(Motion));
    MaskTestIsBit(s.idrAtEcho, Line(Echo));
    Readings(Bit(s.idrAtMotion, Line(Motion)), Bit(s.idrAtEcho, Line(Echo)), Dark(s.dr))
  }

  /** Drive the LEDs from the readings, in source order: the light LED is
      active-low (cleared when dark), the other two are active-high. */
  function Actuate(odr: bv32, rd: Readings): (r: bv32)
    ensures Bit(r, Line(MotionLed)) <==> rd.motion
    ensures Bit(r, Line(ObstacleLed)) <==> rd.obstacle
    ensures !Bit(r, Line(LightLed)) <==> rd.dark
  {
    WriteBit(
      WriteBit(
        WriteBit(odr, Line(LightLed), !rd.dark),
        Line(MotionLed), rd.motion),
      Line(ObstacleLed), rd.obstacle)
  }

  /** The ODR words one iteration passes through: with the trigger raised,
      with it lowered again (the value in force when the echo is sampled),
      and at the end of the iteration. */
  datatype Trace = Trace(readings: Readings, triggerHigh: bv32, atEcho: bv32, out: bv32)

  /** One iteration of the main loop. */
  function Cycle(odr: bv32, s: Sensors): (t: Trace)
    ensures Bit(t.triggerHigh, Line(Trigger))
    ensures !Bit(t.atEcho, Line(Trigger))
    ensures Bit(t.out, Line(MotionLed)) <==> Bit(s.idrAtMotion, Line(Motion))
    ensures Bit(t.out, Line(ObstacleLed)) <==> Bit(s.idrAtEcho, Line(Echo))
    ensures !Bit(t.out, Line(LightLed)) <==> Dark(s.dr)
  {
    Trace(
      Acquire(s),
      SetBit(odr, Line(Trigger)),
      ClearBit(SetBit(odr, Line(Trigger)), Line(Trigger)),
      Actuate(ClearBit(SetBit(odr, Line(Trigger)), Line(Trigger)), Acquire(s)))
  }

  /** The ODR bits an iteration writes: PA2, PA4, PA7 and PA10. */
  const Touched: bv32 := 0x0000_0494

  /** What an iteration promises about its final ODR word, stated bit by
      bit independently of the order of the writes. */
  ghost predicate CycleOutcome(odr: bv32, s: Sensors, out: bv32)
  {
    && (Bit(out, Line(MotionLed)) <==> Bit(s.idrAtMotion, Line(Motion)))
    && (Bit(out, Line(ObstacleLed)) <==> Bit(s.idrAtEcho, Line(Echo)))
    && (!Bit(out, Line(LightLed)) <==> Dark(s.dr))
    && !Bit(out, Line(Trigger))
    && out & !Touched == odr & !Touched
  }

  /** The iteration's final ODR word meets the outcome above. */
  lemma CycleMeetsOutcome(odr: bv32, s: Sensors)
    ensures CycleOutcome(odr, s, Cycle(odr, s).out)
  {
    CycleEndsWithTriggerLow(odr, s);
    CycleWritesOnlyTouched(odr, s);
  }

  lemma CycleEndsWithTriggerLow(odr: bv32, s: Sensors)
    ensures !Bit(Cycle(odr, s).out, Line(Trigger))
  {
  }

  lemma CycleWritesOnlyTouched(odr: bv32, s: Sensors)
    ensures Cycle(odr, s).out & !Touched == odr & !Touched
  {
    var t := Cycle(odr, s);
    TriggerLowered(odr, s);
    ActuateWritesOnlyLeds(t.atEcho, t.readings);
  }

  /** The ODR bits of the three LEDs: PA2, PA7 and PA10. */
  const Leds: bv32 := 0x0000_0484

  lemma ActuateWritesOnlyLeds(odr: bv32, rd: Readings)
    ensures Actuate(odr, rd) & !Leds == odr & !Leds
  {
    LedWritesOnlyLeds(odr, !rd.dark, rd.motion, rd.obstacle);
  }

  /** The three LED writes of `Actuate`, one frame step at a time. */
  lemma LedWritesOnlyLeds(odr: bv32, light: bool, motion: bool, obstacle: bool)
    ensures
      var afterLight := WriteBit(odr, Line(LightLed), light);
      var afterMotion := WriteBit(afterLight, Line(MotionLed), motion);
      WriteBit(afterMotion, Line(ObstacleLed), obstacle) & !Leds == odr & !Leds
  {
    var afterLight := WriteBit(odr, Line(LightLed), light);
    var afterMotion := WriteBit(afterLight, Line(MotionLed), motion);
    WriteBitOutside(odr, Line(LightLed), light, Leds);
    WriteBitOutside(afterLight, Line(MotionLed), motion, Leds);
    WriteBitOutside(afterMotion, Line(ObstacleLed), obstacle, Leds);
  }

  /** The outcome pins the word down: no other word meets it. */
  lemma OutcomeDeterminesWord(odr: bv32, s: Sensors, a: bv32, b: bv32)
    requires CycleOutcome(odr, s, a) && CycleOutcome(odr, s, b)
    ensures a == b
  {
  }

  /** The outcome characterises the iteration exactly. */
  lemma CycleCharacterised(odr: bv32, s: Sensors, out: bv32)
    ensures Cycle(odr, s).out == out <==> CycleOutcome(odr, s, out)
  {
    CycleMeetsOutcome(odr, s);
    if CycleOutcome(odr, s, out) {
      OutcomeDeterminesWord(odr, s, out, Cycle(odr, s).out);
    }
  }

  /** The trigger pulse: PA4 is high after the first write, low again when
      the echo is sampled, and nothing else in ODR moves in between. */
  lemma TriggerPulse(odr: bv32, s: Sensors)
    ensures Bit(Cycle(odr, s).triggerHigh, Line(Trigger))
    ensures !Bit(Cycle(odr, s).atEcho, Line(Trigger))
    ensures Cycle(odr, s).triggerHigh & !Mask(Line(Trigger)) == odr & !Mask(Line(Trigger))
    ensures Cycle(odr, s).atEcho & !Mask(Line(Trigger)) == odr & !Mask(Line(Trigger))
  {
    TriggerRaised(odr, s);
    TriggerLowered(odr, s);
  }

  lemma TriggerRaised(odr: bv32, s: Sensors)
    ensures Cycle(odr, s).triggerHigh & !Mask(Line(Trigger)) == odr & !Mask(Line(Trigger))
  {
  }

  lemma TriggerLowered(odr: bv32, s: Sensors)
    ensures Cycle(odr, s).atEcho & !Mask(Line(Trigger)) == odr & !Mask(Line(Trigger))
  {
  }

  /** Every ODR bit other than PA2, PA4, PA7 and PA10 keeps its value. */
  lemma CycleKeepsOtherBits(odr: bv32, s: Sensors)
    ensures forall j: BitIndex :: j !in {2, 4, 7, 10} ==> (Bit(Cycle(odr, s).out, j) <==> Bit(odr, j))
  {
    CycleMeetsOutcome(odr, s);
    var out := Cycle(odr, s).out;
    forall j: BitIndex | j !in {2, 4, 7, 10}
      ensures Bit(out, j) <==> Bit(odr, j)
    {
      AgreeOutsideBit(out, odr, Touched, j);
    }
  }

  /** Running the loop body again with the same readings leaves ODR as the
      first run left it. */
  lemma CycleIdempotent(odr: bv32, s: Sensors)
    ensures Cycle(Cycle(odr, s).out, s).out == Cycle(odr, s).out
  {
    var once := Cycle(odr, s).out;
    var twice := Cycle(once, s).out;
    CycleMeetsOutcome(odr, s);
    CycleMeetsOutcome(once, s);
    assert CycleOutcome(odr, s, twice);
    OutcomeDeterminesWord(odr, s, once, twice);
  }

  /** The final ODR word depends on the old one only through the bits the
      iteration does not write. */
  lemma CycleDependsOnlyOnUntouched(a: bv32, b: bv32, s: Sensors)
    requires a & !Touched == b & !Touched
    ensures Cycle(a, s).out == Cycle(b, s).out
  {
    CycleMeetsOutcome(a, s);
    CycleMeetsOutcome(b, s);
    assert CycleOutcome(a, s, Cycle(b, s).out);
    OutcomeDeterminesWord(a, s, Cycle(a, s).out, Cycle(b, s).out);
  }

  /** Motion seen, no echo, light sample 2000: PIR LED on, ultrasonic LED
      off, and the light LED high (2000 is above the threshold, so the
      active-low LED is off). */
  lemma BrightRoomWithMotion(odr: bv32, s: Sensors)
    requires Bit(s.idrAtMotion, Line(Motion)) && !Bit(s.idrAtEcho, Line(Echo)) && s.dr == 2000
    ensures Bit(Cycle(odr, s).out, Line(MotionLed))
    ensures !Bit(Cycle(odr, s).out, Line(ObstacleLed))
    ensures Bit(Cycle(odr, s).out, Line(LightLed))
  {
    CycleMeetsOutcome(odr, s);
  }

  /** Light sample 500: the active-low light LED is driven low (on). */
  lemma DarkRoom(odr: bv32, s: Sensors)
    requires s.dr == 500
    ensures !Bit(Cycle(odr, s).out, Line(LightLed))
  {
    CycleMeetsOutcome(odr, s);
  }
}
