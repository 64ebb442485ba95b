/** `init_gpio`: the mode (MODER) and pull (PUPDR) set-up of GPIOA.

    Every write is a read-modify-write of one 2-bit field. Inputs and the
    analog pin get their field forced (`&= ~(3U << 2p)`, `|= (3U << 2p)`),
    but the output pins only get the low bit or-ed in (`|= (1U << 2p)`), so
    they read as "output" only when their field was 00 before, as it is
    after reset. */
module Gpio {
  import opened Registers
  import opened Pins

  /** The two GPIOA configuration registers `init_gpio` writes. */
  datatype PortConfig = PortConfig(moder: bv32, pupdr: bv32)

  /** The meaning of a MODER field. */
  datatype Mode = Input | Output | AlternateFunction | Analog

  /** The meaning of a PUPDR field. */
  datatype Pull = NoPull | PullUp | PullDown | ReservedPull

  function ModeOf(moder: bv32, p: PinIndex): Mode
  {
    var f := Field(moder, p);
    if f == 0 then Input
    else if f == 1 then Output
    else if f == 2 then AlternateFunction
    else Analog
  }

  function PullOf(pupdr: bv32, p: PinIndex): Pull
  {
    var f := Field(pupdr, p);
    if f == 0 then NoPull
    else if f == 1 then PullUp
    else if f == 2 then PullDown
    else ReservedPull
  }

  /** The pins `init_gpio` writes a MODER field of. */
  const ConfiguredPins: set<PinIndex> := {0, 1, 2, 3, 4, 5, 7, 10}

  /** The MODER bits of those pins: fields 0-5, 7 and 10. */
  const ConfiguredFields: bv32 := 0x0030_cfff

  /** `init_gpio`, one field write per source line, innermost first. The
      GPIOA clock enable that precedes them is a hardware side effect and is
      not modelled. */
  function InitGpio(c: PortConfig): (r: PortConfig)
    ensures Field(r.moder, PinOf(Button)) == 0
    ensures Field(r.moder, PinOf(Motion)) == 0
    ensures Field(r.moder, PinOf(Echo)) == 0
    ensures Field(r.moder, PinOf(LightSensor)) == 3
    ensures Field(r.moder, PinOf(MotionLed)) == Field(c.moder, PinOf(MotionLed)) | 1
    ensures Field(r.moder, PinOf(Trigger)) == Field(c.moder, PinOf(Trigger)) | 1
    ensures Field(r.moder, PinOf(ObstacleLed)) == Field(c.moder, PinOf(ObstacleLed)) | 1
    ensures Field(r.moder, PinOf(LightLed)) == Field(c.moder, PinOf(LightLed)) | 1
    ensures r.moder & !ConfiguredFields == c.moder & !ConfiguredFields
    ensures Field(r.pupdr, PinOf(Button)) == 1
    ensures r.pupdr & !FieldMask(0) == c.pupdr & !FieldMask(0)
  {
    PortConfig(
      OrField(          // PA10 output, LDR LED
        OrField(        // PA7 output, ultrasonic LED
          OrField(      // PA2 output, PIR LED
            OrField(    // PA1 analog, LDR
              ClearField(   // PA5 input, echo
                OrField(    // PA4 output, trigger
                  ClearField(   // PA3 input, PIR
                    ClearField(c.moder, 0),  // PA0 input, button
                    3),
                  4, 1),
                5),
              1, 3),
            2, 1),
          7, 1),
        10, 1),
      OrField(ClearField(c.pupdr, 0), 0, 1))  // PA0 pull-up
  }

  /** The mode and pull each signal needs. */
  function ExpectedMode(r: Role): Mode
  {
    match r
    case Button => Input
    case Motion => Input
    case Echo => Input
    case LightSensor => Analog
    case MotionLed => Output
    case Trigger => Output
    case ObstacleLed => Output
    case LightLed => Output
  }

  /** Every pin `init_gpio` does not mention keeps its MODER field, and every
      pin but PA0 keeps its PUPDR field. */
  lemma InitGpioKeepsOtherPins(c: PortConfig)
    ensures forall q: PinIndex :: q !in ConfiguredPins ==> Field(InitGpio(c).moder, q) == Field(c.moder, q)
    ensures forall q: PinIndex :: q != 0 ==> Field(InitGpio(c).pupdr, q) == Field(c.pupdr, q)
  {
    var r := InitGpio(c);
    forall q: PinIndex | q !in ConfiguredPins
      ensures Field(r.moder, q) == Field(c.moder, q)
    {
      AgreeOutsideField(r.moder, c.moder, ConfiguredFields, q);
    }
    forall q: PinIndex | q != 0
      ensures Field(r.pupdr, q) == Field(c.pupdr, q)
    {
      AgreeOutsideField(r.pupdr, c.pupdr, FieldMask(0), q);
    }
  }

  /** Started from a MODER whose output pins are still 00 (their reset
      value), `init_gpio` gives every signal the mode it needs, and the button
      its pull-up. */
  lemma InitGpioConfiguresRoles(c: PortConfig)
    requires forall r: Role :: ExpectedMode(r) == Output ==> Field(c.moder, PinOf(r)) == 0
    ensures forall r: Role :: ModeOf(InitGpio(c).moder, PinOf(r)) == ExpectedMode(r)
    ensures PullOf(InitGpio(c).pupdr, PinOf(Button)) == PullUp
  {
    assert ExpectedMode(MotionLed) == Output && ExpectedMode(Trigger) == Output;
    assert ExpectedMode(ObstacleLed) == Output && ExpectedMode(LightLed) == Output;
  }

  /** The GPIOA reset values of the STM32F4 (PA13-PA15 in alternate-function
      mode for the debug port, with their pulls) and what `init_gpio` turns
      them into. */
  const ResetConfig: PortConfig := PortConfig(0xA800_0000, 0x6400_0000)

  lemma InitGpioFromReset()
    ensures InitGpio(ResetConfig) == PortConfig(0xA810_411C, 0x6400_0001)
  {
  }

  /** If an output pin's field was 10 (alternate function) before, or-ing in
      01 leaves it 11 (analog), not output: `init_gpio` relies on reset. */
  lemma InitGpioOutputNeedsReset(c: PortConfig)
    requires Field(c.moder, PinOf(MotionLed)) == 2
    ensures ModeOf(InitGpio(c).moder, PinOf(MotionLed)) == Analog
  {
  }
}
