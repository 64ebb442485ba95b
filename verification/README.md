# Sensor-indicator controller on GPIOA, modelled in Dafny

A bare-metal STM32F4 program waits until a push-button on PA0 fires
external interrupt line 0. It then loops forever. Each iteration reads a
PIR motion sensor (PA3) and pulses an ultrasonic trigger (PA4). It reads
the echo line (PA5) and samples a light-dependent resistor on ADC1
channel 1 (PA1). It then drives three indicator LEDs:
- PA2 for motion;
- PA7 for an obstacle;
- PA10 for darkness, which is wired active-low.

The model is split into these modules:

- `Registers`: 32-bit register words and the C read-modify-write idioms
  on single bits and on 2-bit pin fields. Lemmas state what each idiom
  does to each bit or field.
- `Pins`: the fixed assignment of signals to GPIOA pins.
- `Gpio`: `init_gpio`, as a function on the MODER and PUPDR words.
- `ControlLoop`: one iteration of the main loop. It is a pure function
  from the old ODR word, the two IDR words the iteration reads, and the
  ADC data register to the ODR values it goes through.
- `StartGate`: the `start_system` flag, `EXTI0_IRQHandler` and the
  startup wait loop. They are modelled as a machine driven by any
  interleaving of three kinds of event:
  - a button edge, which latches the pending bit;
  - a complete run of the interrupt handler;
  - one step of `main`, which is one poll while waiting and one loop
    iteration once running.

The code reads GPIOA->IDR twice in an iteration: once for the PIR test
(line 35) and once for the echo test after the trigger pulse (line 46).
The model therefore takes two IDR words, not one snapshot of the inputs.

## Model

| member | source | states |
|---|---|---|
| Registers.MaskTestIsBit | main.c:35 | the C test `w & (1U << k)` is non-zero exactly when bit k of w is 1 |
| Registers.SetBit | main.c:40 | or-ing `1U << k` into a word leaves bit k at one |
| Registers.ClearBit | main.c:42 | `w &= ~(1U << k)` leaves bit k at zero |
| Registers.WriteBit | main.c:61-65 | the if/else that sets or clears bit k leaves bit k equal to the chosen value |
| Registers.SetBitAt | main.c:40 | or-ing `1U << k` into a word makes bit k one and keeps every other bit |
| Registers.ClearBitAt | main.c:42 | `w &= ~(1U << k)` makes bit k zero and keeps every other bit |
| Registers.WriteBitAt | main.c:61-65 | an if/else that sets or clears bit k gives bit k the chosen value and keeps every other bit |
| Registers.WriteBitOutside | main.c:68-72 | a single-bit write inside a mask leaves the word unchanged outside the mask |
| Registers.SetBitFrame | main.c:40 | setting bit k, stated for all positions at once: k is one, every other bit is unchanged |
| Registers.ClearBitFrame | main.c:42 | clearing bit k, stated for all positions at once: k is zero, every other bit is unchanged |
| Registers.AgreeOutsideMask | main.c:29-82 | words equal outside a mask agree on every bit the mask does not cover |
| Registers.ClearField | main.c:89 | `w &= ~(3U << (2 * p))` leaves field p at 00 |
| Registers.OrField | main.c:97 | or-ing `v << (2 * p)` into a word leaves field p equal to its old value or-ed with v |
| Registers.ClearFieldAt | main.c:89 | `w &= ~(3U << (2 * p))` makes field p 00 and keeps every other 2-bit field |
| Registers.OrFieldAt | main.c:97 | or-ing `v << (2 * p)` into a word ors v into field p, keeping its old bits, and keeps every other field |
| Registers.AgreeOutsideFields | main.c:89-106 | words equal outside a mask agree on every 2-bit field the mask does not touch |
| Pins.PinsDistinct | main.c:34-79 | no two signals share a GPIOA pin or an ODR/IDR bit |
| Gpio.InitGpio | main.c:89-106 | PA0, PA3 and PA5 end as input (00); PA1 ends as analog (11); PA2, PA4, PA7 and PA10 get the low bit or-ed into their old field; PA0's pull becomes pull-up (01); every other MODER bit and every other PUPDR bit is unchanged |
| Gpio.InitGpioKeepsOtherPins | main.c:89-106 | every pin `init_gpio` does not name keeps its MODER field, and every pin but PA0 keeps its PUPDR field |
| Gpio.InitGpioConfiguresRoles | main.c:88-106 | when the output pins start at 00, each signal gets the mode it needs and the button gets its pull-up |
| Gpio.InitGpioFromReset | main.c:85-107 | from the GPIOA reset values, MODER becomes 0xA810411C and PUPDR becomes 0x64000001 |
| Gpio.InitGpioOutputNeedsReset | main.c:104 | an output pin whose field was 10 before ends as 11 (analog), so `init_gpio` relies on reset values |
| ControlLoop.AsCInt | main.c:53 | reading DR into an `int` gives a 32-bit value; it is negative exactly when bit 31 is set and congruent to DR modulo 2^32 |
| ControlLoop.Dark | main.c:56 | on a 12-bit sample (0..4095) the light test `adcData <= threshold` holds exactly when the sample is at most 1024 |
| ControlLoop.Acquire | main.c:35-58 | the motion reading is the C test `IDR & (1U << 3)` on the first IDR read, the echo reading is `IDR & (1U << 5)` on the second, and on a 12-bit sample the dark reading is `sample <= 1024` |
| ControlLoop.CycleMeetsOutcome | main.c:29-82 | after an iteration: PA2 = IDR bit 3, PA7 = IDR bit 5 as read after the pulse, PA10 low iff dark, PA4 low, every other ODR bit unchanged |
| ControlLoop.Actuate | main.c:60-79 | after the three LED writes, PA2 is high exactly when motion was seen, PA7 exactly when an echo was seen, and PA10 is low exactly when it is dark, whatever the order of the writes |
| ControlLoop.Cycle | main.c:29-82 | the trigger PA4 is high after the first write and low when the echo is read; at the end PA2 equals IDR bit 3 as read first, PA7 equals IDR bit 5 as read after the pulse, and PA10 is low exactly when the ADC value is at most 1024 |
| ControlLoop.CycleEndsWithTriggerLow | main.c:40-42 | the trigger PA4 is low at the end of the iteration |
| ControlLoop.CycleWritesOnlyTouched | main.c:40-79 | an iteration changes no ODR bit outside PA2, PA4, PA7 and PA10 |
| ControlLoop.ActuateWritesOnlyLeds | main.c:60-79 | the three LED writes change no ODR bit outside PA2, PA7 and PA10 |
| ControlLoop.LedWritesOnlyLeds | main.c:60-79 | the three LED writes, one after another, change no ODR bit outside PA2, PA7 and PA10 |
| ControlLoop.OutcomeDeterminesWord | main.c:29-82 | only one ODR word meets the iteration's outcome |
| ControlLoop.CycleCharacterised | main.c:29-82 | an ODR word is the result of an iteration if and only if it meets the outcome, whatever the order of the writes |
| ControlLoop.TriggerPulse | main.c:40-42 | PA4 is high after the first write and low again when the echo is read; nothing else in ODR moves in between |
| ControlLoop.TriggerRaised | main.c:40 | raising the trigger changes no ODR bit but PA4 |
| ControlLoop.TriggerLowered | main.c:40-42 | after the pulse ODR is back to its old value everywhere but PA4 |
| ControlLoop.CycleKeepsOtherBits | main.c:29-82 | every ODR bit other than 2, 4, 7 and 10 keeps its value through an iteration |
| ControlLoop.CycleIdempotent | main.c:29-82 | two iterations with the same inputs leave the same ODR as one |
| ControlLoop.CycleDependsOnlyOnUntouched | main.c:29-82 | two ODR words that differ only in PA2, PA4, PA7 and PA10 lead to the same result |
| ControlLoop.BrightRoomWithMotion | main.c:34-79 | motion, no echo and sample 2000: PA2 high, PA7 low, PA10 high |
| ControlLoop.DarkRoom | main.c:55-62 | sample 500: PA10 is driven low |
| StartGate.Handler | main.c:126-130 | with line 0 pending the handler sets `start_system` to 1 and clears the pending bit; otherwise it changes nothing; it never moves `main` or ODR |
| StartGate.Main | main.c:23-82 | `main` never writes the flag or the pending bit; while waiting it leaves the wait loop exactly when it sees a non-zero flag and leaves ODR alone; once running each step is one control-loop iteration |
| StartGate.Step | main.c:126-130 | only the handler changes `start_system`, only when line 0 is pending, and only to 1; a handler run with line 0 pending does set it to 1 and clears the pending bit; only an edge latches the pending bit; `main` leaves the wait loop exactly on a poll that sees a non-zero flag, and never goes back |
| StartGate.StepMovesOdrOnlyInLoop | main.c:23-29 | ODR changes only when `main` runs a control-loop iteration |
| StartGate.StepKeepsValid | main.c:9 | one step keeps the flag at 0 or 1, and `main` runs only when the flag is 1 |
| StartGate.RunKeepsValid | main.c:9 | any run of events keeps that invariant |
| StartGate.ReachableIsValid | main.c:9 | every state reachable from `start_system = 0` meets the invariant |
| StartGate.StartIsPermanent | main.c:23-29 | once set, the flag stays 1; once running, `main` stays in the control loop |
| StartGate.NoEdgeNoStart | main.c:23-26 | without a button edge, nothing changes: the flag stays 0, `main` keeps waiting and ODR keeps its value |
| StartGate.StartNeedsInterrupt | main.c:126-130 | from waiting with the flag 0, `main` reaches the control loop only after a handler run with line 0 pending, followed by a poll |
| StartGate.StartNeedsEdge | main.c:23-26 | from waiting with the flag 0 and nothing pending, reaching the control loop needs a button edge, then a handler run, then a poll |
| StartGate.StepWhileIdle | main.c:126-130 | with the flag 0 and nothing pending, an edge only latches the pending bit and every other event changes nothing |
| StartGate.PollNeeded | main.c:23-26 | leaving the wait loop takes a step of `main` |
| StartGate.PollAfterStartRuns | main.c:23-26 | once the flag is set, any later poll puts `main` in the control loop for good |
| StartGate.InterruptPollRuns | main.c:126-130 | with line 0 pending, a handler run followed by a poll puts `main` in the control loop |
| StartGate.EdgeInterruptPollRuns | main.c:23-26 | from any state, a button edge, a later handler run and a later poll put `main` in the control loop |
| StartGate.GateOpensExactly | main.c:23-26 | from the start state, `main` is in the control loop after a run if and only if the run holds a button edge, then a handler run, then a poll |
| StartGate.RunWritesOnlyTouched | main.c:29-82 | whatever the events, no ODR bit outside PA2, PA4, PA7 and PA10 changes |
| StartGate.StepWritesOnlyTouched | main.c:29-82 | a single event changes no ODR bit outside PA2, PA4, PA7 and PA10 |
| StartGate.SteadyInputsSteadyOutputs | main.c:29-82 | once running, any number of iterations (at least one) with the same inputs leaves the ODR one iteration gives |

## Left out

- `delay` (main.c:13-15) is a busy loop with no observable effect on the
  registers, so it is not modelled. So is each call to it: during the wait
  loop, one poll stands for one delay period.
- The ADC start and the spin on the end-of-conversion flag (main.c:51-52)
  are not modelled. The data register value is an input of each iteration.
- `init_adc` and `configure_interrupt` are not modelled. Their effect on
  what the loop and the handler read is assumed:
  - samples are right-aligned 12-bit values (`ControlLoop.IsSample`);
  - a falling edge on PA0 latches EXTI line 0 (the `ButtonEdge` event).
- The clock enables (main.c:86, 110, 134) are hardware side effects with
  no counterpart in the model.
- Interrupt preemption and `volatile` are not modelled. The handler is an
  atomic event between two steps of `main`. That is sound here: the
  handler touches only the flag and the pending bit, and `main` only reads
  the flag.
- `StartGate.Step` abstracts EXTI->PR to a single boolean for line 0.
  Other pending lines are not modelled.
- `ControlLoop.AsCInt` assumes the compiler's conversion of a
  DR value at or above 2^31 to `int`. C leaves that conversion to the
  implementation; the model uses two's complement, as the ARM GCC
  toolchain does. Real 12-bit samples never reach it.
- The `while (1)` loop is not modelled as an unbounded iteration. Runs of
  the machine are finite sequences of events, of any length.
