/** The fixed wiring of the board: which GPIOA pin each signal uses. The
    mapping never changes while the program runs. */
module Pins {
  import opened Registers

  /** The signals the controller reads or drives. */
  datatype Role =
    | Button       // start push-button, falling edge raises EXTI line 0
    | LightSensor  // LDR divider, sampled by ADC1 channel 1
    | MotionLed    // indicator for the PIR sensor
    | Motion       // PIR sensor output
    | Trigger      // ultrasonic trigger pulse
    | Echo         // ultrasonic echo line
    | ObstacleLed  // indicator for the ultrasonic sensor
    | LightLed     // indicator for the LDR, wired active-low

  /** The GPIOA pin number of each signal. */
  function PinOf(r: Role): PinIndex
  {
    match r
    case Button => 0
    case LightSensor => 1
    case MotionLed => 2
    case Motion => 3
    case Trigger => 4
    case Echo => 5
    case ObstacleLed => 7
    case LightLed => 10
  }

  /** The bit of IDR/ODR that carries the signal (bit n for pin n). */
  function Line(r: Role): BitIndex
  {
    PinOf(r) as BitIndex
  }

  /** No two signals share a pin. */
  lemma PinsDistinct(a: Role, b: Role)
    ensures PinOf(a) == PinOf(b) ==> a == b
    ensures Line(a) == Line(b) ==> a == b
  {
  }
}
