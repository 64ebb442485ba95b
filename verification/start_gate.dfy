/** The start gate: the `start_system` flag, the EXTI0 interrupt handler
    that is its only writer, and the wait loop at the top of `main` that
    holds the control loop back until the flag is set.

    The program is modelled as a machine over the flag, the EXTI line 0
    pending bit (an abstract boolean), where `main` is (in the wait loop or
    in the control loop) and the GPIOA ODR word. Three kinds of event move
    it: a falling edge on the button latches the pending bit, the interrupt
    handler runs to completion as one atomic step, and `main` takes one step
    (one poll of the flag while waiting, one loop iteration once running).
    Any interleaving of these is a run. */
module StartGate {
  import opened Registers
  import ControlLoop

  /** Where `main` is: polling `start_system`, or in the endless control loop. */
  datatype Phase = Waiting | Running

  datatype Machine = Machine(startSystem: int, pending: bool, phase: Phase, odr: bv32)

  datatype Event =
    | ButtonEdge                              // falling edge on PA0: EXTI latches line 0
    | Interrupt                               // EXTI0_IRQHandler runs
    | MainStep(sensors: ControlLoop.Sensors)  // main polls once, or runs one iteration

  /** The state `main` reaches the wait loop in: `start_system` is 0, no
      edge is latched, and ODR is whatever initialisation left. */
  function Init(odr: bv32): Machine
  {
    Machine(0, false, Waiting, odr)
  }

  /** `EXTI0_IRQHandler`: only if line 0 is pending, clear the pending bit
      and set `start_system` to 1. */
  function Handler(m: Machine): (h: Machine)
    ensures m.pending ==> h.startSystem == 1 && !h.pending
    ensures !m.pending ==> h == m
    ensures h.phase == m.phase && h.odr == m.odr
  {
    if m.pending then m.(pending := false, startSystem := 1) else m
  }

  /** One step of `main`: while waiting, one test of `while (!start_system)`
      (the delay in its body does nothing observable); once running, one
      iteration of the control loop. */
  function Main(m: Machine, s: ControlLoop.Sensors): (r: Machine)
    // `main` only reads the flag and never touches the pending bit.
    ensures r.startSystem == m.startSystem && r.pending == m.pending
    // The wait loop is left exactly when the poll sees a non-zero flag.
    ensures m.phase == Waiting ==> (r.phase == Running <==> m.startSystem != 0) && r.odr == m.odr
    // Once running, every step is one iteration of the control loop.
    ensures m.phase == Running ==> r.phase == Running && r.odr == ControlLoop.Cycle(m.odr, s).out
  {
    match m.phase
    case Waiting => if m.startSystem != 0 then m.(phase := Running) else m
    case Running => m.(odr := ControlLoop.Cycle(m.odr, s).out)
  }

  function Step(m: Machine, e: Event): (m': Machine)
    // Only the handler writes the flag, only when the line is pending, and only to 1.
    ensures m'.startSystem != m.startSystem ==> e == Interrupt && m.pending && m'.startSystem == 1
    // A handler run with line 0 pending sets the flag and consumes the pending bit.
    ensures e == Interrupt && m.pending ==> m'.startSystem == 1
    ensures e == Interrupt ==> !m'.pending
    // Only an edge latches the pending bit.
    ensures m'.pending && !m.pending ==> e == ButtonEdge
    // `main` leaves the wait loop exactly on its own step when it sees a non-zero flag.
    ensures m.phase == Waiting ==> (m'.phase == Running <==> e.MainStep? && m.startSystem != 0)
    // The control loop never goes back to waiting.
    ensures m.phase == Running ==> m'.phase == Running
  {
    match e
    case ButtonEdge => m.(pending := true)
    case Interrupt => Handler(m)
    case MainStep(s) => Main(m, s)
  }

  /** ODR moves only when `main` runs an iteration of the control loop. */
  lemma StepMovesOdrOnlyInLoop(m: Machine, e: Event)
    ensures Step(m, e).odr != m.odr ==> e.MainStep? && m.phase == Running
  {
  }

  /** Apply a sequence of events in order. */
  function Run(m: Machine, events: seq<Event>): Machine
    decreases |events|
  {
    if |events| == 0 then m else Run(Step(m, events[0]), events[1..])
  }

  /** The invariant of every reachable state: the flag is 0 or 1, and `main`
      is past the wait loop only if the flag is 1. */
  ghost predicate Valid(m: Machine)
  {
    && (m.startSystem == 0 || m.startSystem == 1)
    && (m.phase == Running ==> m.startSystem == 1)
  }

  lemma StepKeepsValid(m: Machine, e: Event)
    requires Valid(m)
    ensures Valid(Step(m, e))
  {
  }

  lemma {:induction false} RunKeepsValid(m: Machine, events: seq<Event>)
    requires Valid(m)
    ensures Valid(Run(m, events))
    decreases |events|
  {
    if |events| > 0 {
      StepKeepsValid(m, events[0]);
      RunKeepsValid(Step(m, events[0]), events[1..]);
    }
  }

  /** Every run from the initial state ends in a valid state. */
  lemma ReachableIsValid(odr: bv32, events: seq<Event>)
    ensures Valid(Run(Init(odr), events))
  {
    RunKeepsValid(Init(odr), events);
  }

  /** Once set, the flag stays 1; once running, `main` keeps running. */
  lemma {:induction false} StartIsPermanent(m: Machine, events: seq<Event>)
    ensures m.startSystem == 1 ==> Run(m, events).startSystem == 1
    ensures m.phase == Running ==> Run(m, events).phase == Running
    decreases |events|
  {
    if |events| > 0 {
      StartIsPermanent(Step(m, events[0]), events[1..]);
    }
  }

  /** If the button never produces an edge, nothing ever happens: the flag
      stays 0, `main` stays in the wait loop, and ODR keeps the value
      initialisation left in it. */
  lemma {:induction false} NoEdgeNoStart(odr: bv32, events: seq<Event>)
    requires ButtonEdge !in events
    ensures Run(Init(odr), events) == Init(odr)
    decreases |events|
  {
    if |events| > 0 {
      assert Step(Init(odr), events[0]) == Init(odr);
      assert ButtonEdge !in events[1..] by {
        assert forall e :: e in events[1..] ==> e in events;
      }
      NoEdgeNoStart(odr, events[1..]);
    }
  }

  /** The start gate opens exactly when a button edge is followed by a
      handler run and then by a step of `main`. */
  ghost predicate EdgeInterruptPoll(events: seq<Event>)
  {
    exists i, j, k :: 0 <= i < j < k < |events| && events[i] == ButtonEdge && events[j] == Interrupt && events[k].MainStep?
  }

  /** From the start state, `main` is in the control loop after a run if and
      only if the run holds a button edge, a later handler run and a later
      poll. */
  lemma GateOpensExactly(odr: bv32, events: seq<Event>)
    ensures Run(Init(odr), events).phase == Running <==> EdgeInterruptPoll(events)
  {
    if Run(Init(odr), events).phase == Running {
      StartNeedsEdge(Init(odr), events);
    }
    if EdgeInterruptPoll(events) {
      var i, j, k :| 0 <= i < j < k < |events| && events[i] == ButtonEdge && events[j] == Interrupt && events[k].MainStep?;
      EdgeInterruptPollRuns(Init(odr), events, i, j, k);
    }
  }

  /** From a waiting state with the flag 0: if `main` ends up running, the
      handler ran while line 0 was pending and `main` polled after it. */
  lemma {:induction false} StartNeedsInterrupt(m: Machine, events: seq<Event>)
    requires m.startSystem == 0 && m.phase == Waiting
    requires Run(m, events).phase == Running
    ensures exists j, k :: 0 <= j < k < |events| && events[j] == Interrupt && events[k].MainStep?
    decreases |events|
  {
    if |events| == 0 {
      assert false;
    } else {
      var m1 := Step(m, events[0]);
      var rest := events[1..];
      assert Run(m, events) == Run(m1, rest);
      if events[0] == Interrupt && m.pending {
        PollNeeded(m1, rest);
        var k :| 0 <= k < |rest| && rest[k].MainStep?;
        assert events[0] == Interrupt && events[k + 1].MainStep?;
      } else {
        StartNeedsInterrupt(m1, rest);
        var j, k :| 0 <= j < k < |rest| && rest[j] == Interrupt && rest[k].MainStep?;
        assert events[j + 1] == Interrupt && events[k + 1].MainStep?;
      }
    }
  }

  /** From a waiting state with the flag 0 and nothing pending: if `main`
      ends up running, a button edge came first, then a handler run, then a
      poll. */
  lemma {:induction false} StartNeedsEdge(m: Machine, events: seq<Event>)
    requires m.startSystem == 0 && m.phase == Waiting && !m.pending
    requires Run(m, events).phase == Running
    ensures EdgeInterruptPoll(events)
    decreases |events|
  {
    if |events| == 0 {
      assert false;
    } else {
      var m1 := Step(m, events[0]);
      var rest := events[1..];
      assert Run(m, events) == Run(m1, rest);
      StepWhileIdle(m, events[0]);
      if events[0] == ButtonEdge {
        StartNeedsInterrupt(m1, rest);
        var j, k :| 0 <= j < k < |rest| && rest[j] == Interrupt && rest[k].MainStep?;
        assert events[0] == ButtonEdge && events[j + 1] == Interrupt && events[k + 1].MainStep?;
      } else {
        StartNeedsEdge(m1, rest);
        var i, j, k :| 0 <= i < j < k < |rest| && rest[i] == ButtonEdge && rest[j] == Interrupt && rest[k].MainStep?;
        assert events[i + 1] == ButtonEdge && events[j + 1] == Interrupt && events[k + 1].MainStep?;
      }
    }
  }

  /** While the flag is 0 and nothing is pending, an edge only latches the
      pending bit and every other event changes nothing. */
  lemma StepWhileIdle(m: Machine, e: Event)
    requires m.startSystem == 0 && m.phase == Waiting && !m.pending
    ensures e == ButtonEdge ==> Step(m, e) == m.(pending := true)
    ensures e != ButtonEdge ==> Step(m, e) == m
  {
  }

  /** Leaving the wait loop takes a step of `main`. */
  lemma {:induction false} PollNeeded(m: Machine, events: seq<Event>)
    requires m.phase == Waiting
    requires Run(m, events).phase == Running
    ensures exists k :: 0 <= k < |events| && events[k].MainStep?
    decreases |events|
  {
    if |events| == 0 {
      assert false;
    } else if events[0].MainStep? {
      assert events[0].MainStep?;
    } else {
      var m1 := Step(m, events[0]);
      assert Run(m, events) == Run(m1, events[1..]);
      PollNeeded(m1, events[1..]);
      var k :| 0 <= k < |events[1..]| && events[1..][k].MainStep?;
      assert events[k + 1].MainStep?;
    }
  }

  /** With the flag set (or `main` already running), a later step of `main`
      puts it in the control loop for good. */
  lemma {:induction false} PollAfterStartRuns(m: Machine, events: seq<Event>, k: nat)
    requires m.startSystem != 0 || m.phase == Running
    requires k < |events| && events[k].MainStep?
    ensures Run(m, events).phase == Running
    decreases k
  {
    var m1 := Step(m, events[0]);
    assert Run(m, events) == Run(m1, events[1..]);
    if k == 0 {
      StartIsPermanent(m1, events[1..]);
    } else {
      PollAfterStartRuns(m1, events[1..], k - 1);
    }
  }

  /** With line 0 pending (or the flag already set), a handler run followed
      by a step of `main` puts `main` in the control loop. */
  lemma {:induction false} InterruptPollRuns(m: Machine, events: seq<Event>, j: nat, k: nat)
    requires m.pending || m.startSystem != 0 || m.phase == Running
    requires j < k < |events| && events[j] == Interrupt && events[k].MainStep?
    ensures Run(m, events).phase == Running
    decreases j
  {
    var m1 := Step(m, events[0]);
    assert Run(m, events) == Run(m1, events[1..]);
    if j == 0 {
      PollAfterStartRuns(m1, events[1..], k - 1);
    } else {
      InterruptPollRuns(m1, events[1..], j - 1, k - 1);
    }
  }

  /** From any state, a button edge, a later handler run and a later step of
      `main` put `main` in the control loop. */
  lemma {:induction false} EdgeInterruptPollRuns(m: Machine, events: seq<Event>, i: nat, j: nat, k: nat)
    requires i < j < k < |events|
    requires events[i] == ButtonEdge && events[j] == Interrupt && events[k].MainStep?
    ensures Run(m, events).phase == Running
    decreases i
  {
    var m1 := Step(m, events[0]);
    assert Run(m, events) == Run(m1, events[1..]);
    if i == 0 {
      InterruptPollRuns(m1, events[1..], j - 1, k - 1);
    } else {
      EdgeInterruptPollRuns(m1, events[1..], i - 1, j - 1, k - 1);
    }
  }

  /** The running control loop, whatever the button and interrupt do in
      between, never changes an ODR bit outside PA2, PA4, PA7 and PA10. */
  lemma {:induction false} RunWritesOnlyTouched(m: Machine, events: seq<Event>)
    ensures Run(m, events).odr & !ControlLoop.Touched == m.odr & !ControlLoop.Touched
    decreases |events|
  {
    if |events| > 0 {
      StepWritesOnlyTouched(m, events[0]);
      RunWritesOnlyTouched(Step(m, events[0]), events[1..]);
    }
  }

  lemma StepWritesOnlyTouched(m: Machine, e: Event)
    ensures Step(m, e).odr & !ControlLoop.Touched == m.odr & !ControlLoop.Touched
  {
    if e.MainStep? && m.phase == Running {
      ControlLoop.CycleWritesOnlyTouched(m.odr, e.sensors);
    } else {
      StepMovesOdrOnlyInLoop(m, e);
    }
  }

  /** Once running, any non-empty run of iterations with unchanged sensor
      inputs leaves ODR exactly as one iteration does. */
  lemma {:induction false} SteadyInputsSteadyOutputs(m: Machine, s: ControlLoop.Sensors, events: seq<Event>)
    requires m.phase == Running
    requires |events| >= 1
    requires forall i :: 0 <= i < |events| ==> events[i] == MainStep(s)
    ensures Run(m, events).odr == ControlLoop.Cycle(m.odr, s).out
    decreases |events|
  {
    var m1 := Step(m, events[0]);
    if |events| == 1 {
      assert Run(m1, events[1..]) == m1;
    } else {
      SteadyInputsSteadyOutputs(m1, s, events[1..]);
      ControlLoop.CycleIdempotent(m.odr, s);
    }
  }
}
