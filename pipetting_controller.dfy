/**
 * The pipetting controller as an object: its fields are updated in place by
 * each operation, and every operation is proved to leave the controller in
 * the state the matching workflow function of PipettingSpec describes.
 *
 * The stepper controller and time.sleep are not called: what the controller
 * asks of them is appended to `trace`. Reads of the stop flag and of the
 * wall clock go through PollStop and ReadClock, which consult the
 * environment and count the reads.
 */
module PipettingControl {
  import opened Wrappers
  import opened CoordinateMapper
  import opened StepperControl
  import opened PipettingSpec

  /** The events of a batch of commands issued one after the other. */
  lemma IssuedAppend(a: seq<Movement>, b: seq<Movement>)
    ensures Issued(a + b) == Issued(a) + Issued(b)
  {
    var t := Issued(a + b);
    assert |t| == |Issued(a) + Issued(b)|;
    forall i | 0 <= i < |t|
      ensures t[i] == (Issued(a) + Issued(b))[i]
    {
      if i < |a| {
        assert (a + b)[i] == a[i];
      } else {
        assert (a + b)[i] == b[i - |a|];
      }
    }
  }

  /** Issuing a batch of at most one command after a prefix issues their concatenation. */
  lemma IssuedThen(r: Rig, done: seq<Movement>, next: seq<Movement>)
    requires |next| <= 1
    ensures Traced(Traced(r, Issued(done)), Issued(next)) == Traced(r, Issued(done + next))
    ensures next == [] ==> Traced(r, Issued(done)) == Traced(r, Issued(done + next))
    ensures |next| == 1 ==> Traced(Traced(r, Issued(done)), [Motor(next[0])]) == Traced(r, Issued(done + next))
  {
    IssuedAppend(done, next);
    assert (r.trace + Issued(done)) + Issued(next) == r.trace + (Issued(done) + Issued(next));
    if next == [] {
      assert done + next == done;
    }
  }

  /**
   * From rig r at cycle i, rinse ends as goal. The quantifier keeps the
   * verifier from unfolding RinsedFrom outside the lemmas below, which
   * carry the proof of each step of rinse's loop.
   */
  ghost predicate RinseLeft(r: Rig, w: string, i: nat, goal: Run) {
    forall k: nat {:trigger RinsedFrom(r, w, k)} :: k == i ==> RinsedFrom(r, w, k) == goal
  }

  /** Rinse starts at cycle 0, once the rinse is logged. */
  lemma RinseBegins(r: Rig, w: string, next: Rig)
    requires next == Logged(r, RinsingIn(w))
    ensures RinseLeft(next, w, 0, Rinsed(r, w))
  {
    assert RinsedFrom(next, w, 0) == Rinsed(r, w);
  }

  /** One rinse cycle: down into the well, then draw and expel the rinse volume. */
  lemma RinseCycleAt(r: Rig, w: string, i: nat, next: Rig, goal: Run)
    requires RinseLeft(r, w, i, goal)
    requires i < RinseCycles && MovedToWell(r, w, -PickupDepth).status == Completed
    requires next == Dispensed(Aspirated(MovedToWell(r, w, -PickupDepth).rig, RinseVolume), RinseVolume)
    ensures RinseLeft(next, w, i + 1, goal)
  {
    assert RinsedFrom(r, w, i) == goal;
    assert RinsedFrom(next, w, i + 1) == goal;
  }

  /** A rinse cycle whose well identifier is refused ends the rinse there. */
  lemma RinseCycleRaised(r: Rig, w: string, i: nat, goal: Run)
    requires RinseLeft(r, w, i, goal)
    requires i < RinseCycles && MovedToWell(r, w, -PickupDepth).status.Raised?
    ensures goal == MovedToWell(r, w, -PickupDepth)
  {
    assert RinsedFrom(r, w, i) == goal;
  }

  /** After the last rinse cycle the tip goes back up to the top of the well. */
  lemma RinseEnd(r: Rig, w: string, i: nat, goal: Run)
    requires RinseLeft(r, w, i, goal) && i >= RinseCycles
    ensures goal == MovedToWell(r, w, 0.0)
  {
    assert RinsedFrom(r, w, i) == goal;
  }

  /** From rig r at cycle c, the cycle loop ends as goal (hidden as RinseLeft is). */
  ghost predicate CyclesLeft(r: Rig, step: PipettingStep, env: Env, c: nat, goal: Run) {
    forall k: nat {:trigger CyclesFrom(r, step, env, k)} :: k == c ==> CyclesFrom(r, step, env, k) == goal
  }

  lemma CyclesBegin(r: Rig, step: PipettingStep, env: Env)
    ensures CyclesLeft(r, step, env, 0, CyclesRun(r, step, env))
  {
    assert CyclesFrom(r, step, env, 0) == CyclesRun(r, step, env);
  }

  /** A stop flag found set before a cycle ends the loop with False. */
  lemma CyclesStopSeen(r: Rig, step: PipettingStep, env: Env, c: nat, goal: Run)
    requires CyclesLeft(r, step, env, c, goal) && c < step.cycles && Polled(r, env).stopRequested
    ensures goal == Run(Polled(r, env), StopSeen)
  {
    assert CyclesFrom(r, step, env, c) == goal;
  }

  /** A transfer that raises ends the loop with its exception. */
  lemma CyclesRaised(r: Rig, step: PipettingStep, env: Env, c: nat, goal: Run)
    requires CyclesLeft(r, step, env, c, goal) && c < step.cycles && !Polled(r, env).stopRequested
    requires CycleTransfer(Polled(r, env), step, c).status.Raised?
    ensures goal == CycleTransfer(Polled(r, env), step, c)
  {
    assert CyclesFrom(r, step, env, c) == goal;
  }

  /** A completed cycle and its wait lead to the next cycle. */
  lemma CycleAt(r: Rig, step: PipettingStep, env: Env, c: nat, next: Rig, goal: Run)
    requires CyclesLeft(r, step, env, c, goal) && c < step.cycles && !Polled(r, env).stopRequested
    requires !CycleTransfer(Polled(r, env), step, c).status.Raised?
    requires next == AfterCycle(CycleTransfer(Polled(r, env), step, c).rig, step, c)
    ensures CyclesLeft(next, step, env, c + 1, goal)
  {
    assert CyclesFrom(r, step, env, c) == goal;
    assert CyclesFrom(next, step, env, c + 1) == goal;
  }

  lemma CyclesEnd(r: Rig, step: PipettingStep, env: Env, c: nat, goal: Run)
    requires CyclesLeft(r, step, env, c, goal) && c >= step.cycles
    ensures goal == Run(r, Completed)
  {
    assert CyclesFrom(r, step, env, c) == goal;
  }

  /** From rig r at repetition q, quantity mode ends as goal. */
  ghost predicate RepetitionsLeft(r: Rig, step: PipettingStep, env: Env, q: nat, goal: Run) {
    forall k: nat {:trigger RepetitionsFrom(r, step, env, k)} :: k == q ==> RepetitionsFrom(r, step, env, k) == goal
  }

  lemma RepetitionsBegin(r: Rig, step: PipettingStep, env: Env)
    ensures RepetitionsLeft(r, step, env, 0, RepetitionsFrom(r, step, env, 0))
  {
  }

  /** A stop flag found set before a repetition ends quantity mode normally. */
  lemma RepetitionsStopped(r: Rig, step: PipettingStep, env: Env, q: nat, goal: Run)
    requires RepetitionsLeft(r, step, env, q, goal) && q < step.repetitionQuantity && Polled(r, env).stopRequested
    ensures goal == Run(Polled(r, env), Completed)
  {
    assert RepetitionsFrom(r, step, env, q) == goal;
  }

  /** A repetition whose cycles raise, or saw a stop, ends quantity mode. */
  lemma RepetitionsCut(r: Rig, step: PipettingStep, env: Env, q: nat, goal: Run)
    requires RepetitionsLeft(r, step, env, q, goal) && q < step.repetitionQuantity && !Polled(r, env).stopRequested
    requires !RepetitionRun(Polled(r, env), step, env, q).status.Completed?
    ensures var c := RepetitionRun(Polled(r, env), step, env, q);
            goal == if c.status.Raised? then c else Run(c.rig, Completed)
  {
    assert RepetitionsFrom(r, step, env, q) == goal;
  }

  /** A completed repetition and its wait lead to the next repetition. */
  lemma RepetitionAt(r: Rig, step: PipettingStep, env: Env, q: nat, next: Rig, goal: Run)
    requires RepetitionsLeft(r, step, env, q, goal) && q < step.repetitionQuantity && !Polled(r, env).stopRequested
    requires RepetitionRun(Polled(r, env), step, env, q).status.Completed?
    requires next == AfterRepetition(RepetitionRun(Polled(r, env), step, env, q).rig, step, q)
    ensures RepetitionsLeft(next, step, env, q + 1, goal)
  {
    assert RepetitionsFrom(r, step, env, q) == goal;
    assert RepetitionsFrom(next, step, env, q + 1) == goal;
  }

  lemma RepetitionsEnd(r: Rig, step: PipettingStep, env: Env, q: nat, goal: Run)
    requires RepetitionsLeft(r, step, env, q, goal) && q >= step.repetitionQuantity
    ensures goal == Run(r, Completed)
  {
    assert RepetitionsFrom(r, step, env, q) == goal;
  }

  /** From rig r after `reps` repetitions, time-frequency mode ends as goal. */
  ghost predicate TimedLeft(r: Rig, step: PipettingStep, env: Env, start: real, reps: nat, goal: Run) {
    && Truthy(step.repetitionInterval) && Truthy(step.repetitionDuration)
    && forall k: nat {:trigger TimedFrom(r, step, env, start, k)} :: k == reps ==> TimedFrom(r, step, env, start, k) == goal
  }

  lemma TimedBegin(r: Rig, step: PipettingStep, env: Env, start: real)
    requires Truthy(step.repetitionInterval) && Truthy(step.repetitionDuration)
    ensures TimedLeft(r, step, env, start, 0, TimedFrom(r, step, env, start, 0))
  {
  }

  /** A loop test that finds no clock reading left ends the mode. */
  lemma TimedClockOut(r: Rig, step: PipettingStep, env: Env, start: real, reps: nat, goal: Run)
    requires TimedLeft(r, step, env, start, reps, goal) && r.clockReads >= |env.clock|
    ensures goal == Run(r, Completed)
  {
    assert TimedFrom(r, step, env, start, reps) == goal;
  }

  /** A loop test that finds the duration elapsed ends the mode. */
  lemma TimedElapsed(r: Rig, step: PipettingStep, env: Env, start: real, reps: nat, goal: Run)
    requires TimedLeft(r, step, env, start, reps, goal) && r.clockReads < |env.clock|
    requires !(env.clock[r.clockReads] - start < step.repetitionDuration.value as real)
    ensures goal == Run(r.(clockReads := r.clockReads + 1), Completed)
  {
    assert TimedFrom(r, step, env, start, reps) == goal;
  }

  /** A stop flag found set at the top of the loop ends the mode. */
  lemma TimedStopped(r: Rig, step: PipettingStep, env: Env, start: real, reps: nat, goal: Run)
    requires TimedLeft(r, step, env, start, reps, goal) && r.clockReads < |env.clock|
    requires env.clock[r.clockReads] - start < step.repetitionDuration.value as real
    requires Polled(r.(clockReads := r.clockReads + 1), env).stopRequested
    ensures goal == Run(Polled(r.(clockReads := r.clockReads + 1), env), Completed)
  {
    assert TimedFrom(r, step, env, start, reps) == goal;
  }

  /** The rig at which a repetition's cycles start: after the tests and the announcement. */
  ghost function TimedRepetitionStart(r: Rig, step: PipettingStep, env: Env, n: nat): Rig
    requires Truthy(step.repetitionInterval) && Truthy(step.repetitionDuration)
  {
    var interval, duration := step.repetitionInterval.value, step.repetitionDuration.value;
    Logged(Polled(r.(clockReads := r.clockReads + 1), env),
           RepetitionOf(n, Trunc(duration as real / interval as real)))
  }

  /**
   * Cycles that raise, or that saw a stop, end the mode: the exception goes
   * on, a stop ends the loop normally.
   */
  lemma TimedCut(r: Rig, step: PipettingStep, env: Env, start: real, reps: nat, n: nat, c: Run, goal: Run)
    requires TimedLeft(r, step, env, start, reps, goal) && n == reps + 1 && r.clockReads < |env.clock|
    requires env.clock[r.clockReads] - start < step.repetitionDuration.value as real
    requires !Polled(r.(clockReads := r.clockReads + 1), env).stopRequested
    requires c == CyclesRun(TimedRepetitionStart(r, step, env, n), step, env) && !c.status.Completed?
    ensures goal == if c.status.Raised? then c else Run(c.rig, Completed)
  {
    var interval, duration := step.repetitionInterval.value, step.repetitionDuration.value;
    var r1 := Polled(r.(clockReads := r.clockReads + 1), env);
    assert TimedRepetitionStart(r, step, env, n) == Logged(r1, RepetitionOf(reps + 1, Trunc(duration as real / interval as real)));
    assert TimedFrom(r, step, env, start, reps) == if c.status.Raised? then c else Run(c.rig, Completed);
  }

  /** Completed cycles with no clock reading left after them end the mode. */
  lemma TimedClockOutAfter(r: Rig, step: PipettingStep, env: Env, start: real, reps: nat, n: nat, c: Run, goal: Run)
    requires TimedLeft(r, step, env, start, reps, goal) && n == reps + 1 && r.clockReads < |env.clock|
    requires env.clock[r.clockReads] - start < step.repetitionDuration.value as real
    requires !Polled(r.(clockReads := r.clockReads + 1), env).stopRequested
    requires c == CyclesRun(TimedRepetitionStart(r, step, env, n), step, env)
    requires c.status.Completed? && c.rig.clockReads >= |env.clock|
    ensures goal == Run(c.rig, Completed)
  {
    assert TimedFrom(r, step, env, start, reps) == goal;
  }

  /**
   * A completed repetition: read the clock, then wait until the next
   * multiple of the interval, cut short at the end of the duration.
   */
  lemma TimedAt(r: Rig, step: PipettingStep, env: Env, start: real, reps: nat, n: nat, c: Run, next: Rig, goal: Run)
    requires TimedLeft(r, step, env, start, reps, goal) && n == reps + 1 && r.clockReads < |env.clock|
    requires env.clock[r.clockReads] - start < step.repetitionDuration.value as real
    requires !Polled(r.(clockReads := r.clockReads + 1), env).stopRequested
    requires c == CyclesRun(TimedRepetitionStart(r, step, env, n), step, env)
    requires c.status == Completed && c.rig.clockReads < |env.clock|
    requires var elapsed := env.clock[c.rig.clockReads] - start;
             var r3 := c.rig.(clockReads := c.rig.clockReads + 1);
             var remaining := (n * step.repetitionInterval.value) as real - elapsed;
             var duration := step.repetitionDuration.value as real;
             next == if remaining > 0.0 && elapsed < duration
                     then Waited(r3, WaitingUntilNext(remaining), MinReal(remaining, duration - elapsed))
                     else r3
    ensures TimedLeft(next, step, env, start, n, goal)
  {
    assert TimedFrom(r, step, env, start, reps) == goal;
    assert TimedFrom(next, step, env, start, reps + 1) == goal;
  }

  /** From rig r at step i (0-based), the sequence ends as goal. */
  ghost predicate SequenceLeft(r: Rig, steps: seq<PipettingStep>, env: Env, i: nat, goal: Run) {
    && i <= |steps|
    && forall k: nat {:trigger SequenceFrom(r, steps, env, k)} :: k == i ==> SequenceFrom(r, steps, env, k) == goal
  }

  /** The sequence starts at step 0 once the flag is cleared and the header logged. */
  lemma SequenceBegin(r: Rig, steps: seq<PipettingStep>, env: Env, next: Rig)
    requires next == Logged(Logged(Logged(r.(stopRequested := false), Rule), ExecutingSequence(|steps|)), Rule)
    ensures SequenceLeft(next, steps, env, 0, SequenceRun(r, steps, env))
  {
    assert SequenceFrom(next, steps, env, 0) == SequenceRun(r, steps, env);
  }

  /** A stop flag found set before a step reports the steps done and ends the sequence. */
  lemma SequenceHaltedBefore(r: Rig, steps: seq<PipettingStep>, env: Env, i: nat, goal: Run)
    requires SequenceLeft(r, steps, env, i, goal) && i < |steps| && Polled(r, env).stopRequested
    ensures goal == Run(Halted(Polled(r, env), i, |steps|), Completed)
  {
    assert SequenceFrom(r, steps, env, i) == goal;
  }

  /** The rig at which step i's repetitions start: after the test, the banner and the pipette count. */
  ghost function StepStart(r: Rig, steps: seq<PipettingStep>, env: Env, i: nat): Rig
    requires i < |steps|
  {
    Logged(Logged(Polled(r, env), StepOf(i + 1, |steps|)), StepPipettes(steps[i].pipetteCount))
      .(pipetteCount := steps[i].pipetteCount)
  }

  /** A step that raises ends the sequence with its exception. */
  lemma SequenceRaised(r: Rig, steps: seq<PipettingStep>, env: Env, i: nat, b: Run, goal: Run)
    requires SequenceLeft(r, steps, env, i, goal) && i < |steps| && !Polled(r, env).stopRequested
    requires b == StepBody(StepStart(r, steps, env, i), steps[i], env) && b.status.Raised?
    ensures goal == b
  {
    assert SequenceFrom(r, steps, env, i) == goal;
  }

  /** A stop flag found set after a step reports the steps done, this one included. */
  lemma SequenceHaltedAfter(r: Rig, steps: seq<PipettingStep>, env: Env, i: nat, b: Run, goal: Run)
    requires SequenceLeft(r, steps, env, i, goal) && i < |steps| && !Polled(r, env).stopRequested
    requires b == StepBody(StepStart(r, steps, env, i), steps[i], env) && !b.status.Raised?
    requires Polled(b.rig, env).stopRequested
    ensures goal == Run(Halted(Polled(b.rig, env), i + 1, |steps|), Completed)
  {
    assert SequenceFrom(r, steps, env, i) == goal;
  }

  /** A step done without a stop, and its wait, lead to the next step. */
  lemma SequenceStepAt(r: Rig, steps: seq<PipettingStep>, env: Env, i: nat, b: Run, next: Rig, goal: Run)
    requires SequenceLeft(r, steps, env, i, goal) && i < |steps| && !Polled(r, env).stopRequested
    requires b == StepBody(StepStart(r, steps, env, i), steps[i], env) && !b.status.Raised?
    requires !Polled(b.rig, env).stopRequested
    requires next == if steps[i].waitTime > 0 && i + 1 < |steps|
                     then Waited(Polled(b.rig, env), WaitingBeforeStep(steps[i].waitTime), steps[i].waitTime as real)
                     else Polled(b.rig, env)
    ensures SequenceLeft(next, steps, env, i + 1, goal)
  {
    assert SequenceFrom(r, steps, env, i) == goal;
    assert SequenceFrom(next, steps, env, i + 1) == goal;
  }

  lemma SequenceEnd(r: Rig, steps: seq<PipettingStep>, env: Env, i: nat, goal: Run)
    requires SequenceLeft(r, steps, env, i, goal) && i == |steps|
    ensures goal == Run(Logged(Logged(Logged(r, Rule), SequenceComplete), Rule), Completed)
  {
    assert SequenceFrom(r, steps, env, i) == goal;
  }

  class PipettingController {
    var position: Coords                 // current_position
    var stopRequested: bool              // stop_requested
    var pipetteCount: int                // current_pipette_count
    var operation: Operation             // current_operation
    var operationWell: Option<string>    // operation_well
    var logBuffer: seq<LogEntry>         // log_buffer
    var trace: seq<Event>                // what was asked of the hardware, in order
    var polls: nat                       // reads of stop_requested so far
    var clockReads: nat                  // reads of time.time() so far

    /** The controller's fields as a value of the workflow model. */
    function State(): Rig
      reads this
    {
      Rig(position, stopRequested, pipetteCount, operation, operationWell, logBuffer, trace, polls, clockReads)
    }

    /**
     * __init__, with the position and pipette count that load_position
     * returned given as parameters: the two start-up lines are logged.
     */
    constructor (saved: Coords, savedCount: int)
      ensures State() == Logged(Logged(Rig(saved, false, savedCount, Idle, None, [], [], 0, 0),
                                       Initialized(CoordinatesToWell(saved))),
                                PipetteConfiguration(savedCount))
    {
      position := saved;
      stopRequested := false;
      pipetteCount := savedCount;
      operation := Idle;
      operationWell := None;
      logBuffer := [];
      trace := [];
      polls := 0;
      clockReads := 0;
      new;
      Log(Initialized(CoordinatesToWell(saved)));
      Log(PipetteConfiguration(savedCount));
    }

    /** log: append the entry and, once the buffer holds more than MaxLogs, drop the oldest. */
    method Log(e: LogEntry)
      modifies this
      ensures State() == Logged(old(State()), e)
      ensures old(|logBuffer|) <= MaxLogs ==> |logBuffer| <= MaxLogs && logBuffer == LastN(old(logBuffer) + [e], MaxLogs)
    {
      logBuffer := logBuffer + [e];
      if |logBuffer| > MaxLogs {
        logBuffer := logBuffer[1..];
      }
    }

    /** get_logs(last_n): the slice [-last_n:] of the buffer, or [] when it is empty. */
    method GetLogs(lastN: int) returns (r: seq<LogEntry>)
      ensures r == LastLogs(logBuffer, lastN)
      ensures lastN > 0 ==> r == LastN(logBuffer, lastN)
      ensures lastN == 0 ==> r == logBuffer
    {
      if logBuffer == [] {
        return [];
      }
      var len := |logBuffer|;
      var start: nat;
      if lastN > 0 {
        start := if len - lastN < 0 then 0 else len - lastN;
      } else {
        start := if -lastN > len then len else -lastN;
      }
      r := logBuffer[start..];
    }

    /** clear_logs: empty the buffer; nothing else changes. */
    method ClearLogs()
      modifies this
      ensures State() == old(State()).(logs := [])
    {
      logBuffer := [];
    }

    /** stepper_controller.move_motor, as the command it issues. */
    method MoveMotor(m: Movement)
      modifies this
      ensures State() == Traced(old(State()), [Motor(m)])
    {
      trace := trace + [Motor(m)];
    }

    /** time.sleep, as the pause it asks for. */
    method Sleep(seconds: real)
      modifies this
      ensures State() == Traced(old(State()), [Event.Sleep(seconds)])
    {
      trace := trace + [Event.Sleep(seconds)];
    }

    /**
     * move_to_well: report Moving; on a bad identifier stop with its error.
     * Otherwise issue the safe raise, X, Y and Z commands for the step
     * deltas, take the target as the position and report Idle.
     */
    method MoveToWell(id: string, zOffset: real) returns (status: Status)
      modifies this
      ensures Run(State(), status) == MovedToWell(old(State()), id, zOffset)
    {
      operation := Moving;
      operationWell := Some(id);
      Log(MovingTo(id));
      var found := WellToCoordinates(id);
      if found.Failure? {
        return Raised(found.error);
      }
      ghost var moving := State();
      var target := Target(found.value, zOffset);
      var d := Deltas(position, target);
      IssueMove(d.0, d.1, d.2);
      position := target;
      ghost var arrived := Traced(moving, Issued(MoveCommands(d.0, d.1, d.2))).(position := target);
      assert State() == arrived;
      Log(Arrived(id, target));
      operation := Idle;
      operationWell := None;
      status := Completed;
      assert State() == Logged(arrived, Arrived(id, target)).(operation := Idle, operationWell := None);
    }

    /**
     * The motor commands of move_to_well for the step deltas: a safe raise
     * before a descent, then X, then Y, then Z; no command for a zero delta.
     */
    method IssueMove(dx: int, dy: int, dz: int)
      modifies this
      ensures State() == Traced(old(State()), Issued(MoveCommands(dx, dy, dz)))
    {
      ghost var zUp, xs, ys, zs := SafeRaise(dz), AxisMove(1, dx), AxisMove(2, dy), ZMove(dz);
      ghost var start := State();
      assert start == Traced(start, Issued([]));
      if dz < 0 {
        MoveMotor(Movement(3, SafeSteps, Clockwise));
      }
      IssuedThen(start, [], zUp);
      assert State() == Traced(start, Issued([] + zUp));
      if dx != 0 {
        MoveMotor(Movement(1, Abs(dx), DirectionOf(dx)));
      }
      IssuedThen(start, zUp, xs);
      assert State() == Traced(start, Issued(zUp + xs));
      if dy != 0 {
        MoveMotor(Movement(2, Abs(dy), DirectionOf(dy)));
      }
      IssuedThen(start, zUp + xs, ys);
      assert State() == Traced(start, Issued(zUp + xs + ys));
      if dz != 0 {
        if dz < 0 {
          MoveMotor(Movement(3, Abs(dz) + SafeSteps, Counterclockwise));
        } else {
          MoveMotor(Movement(3, Abs(dz), Clockwise));
        }
      }
      IssuedThen(start, zUp + xs + ys, zs);
      assert State() == Traced(start, Issued(zUp + xs + ys + zs));
      assert zUp + xs + ys + zs == MoveCommands(dx, dy, dz);
    }

    /** aspirate: report Aspirating at the current well, draw the volume, settle, report Idle. */
    method Aspirate(volume: real)
      modifies this
      ensures State() == Aspirated(old(State()), volume)
    {
      operation := Aspirating;
      operationWell := CoordinatesToWell(position);
      Log(AspiratingVolume(volume));
      MoveMotor(Movement(4, PlungerSteps(volume), Clockwise));
      Sleep(SettleSeconds);
      operation := Idle;
      operationWell := None;
    }

    /** dispense: report Dispensing at the current well, expel the volume, settle, report Idle. */
    method Dispense(volume: real)
      modifies this
      ensures State() == Dispensed(old(State()), volume)
    {
      operation := Dispensing;
      operationWell := CoordinatesToWell(position);
      Log(DispensingVolume(volume));
      MoveMotor(Movement(4, PlungerSteps(volume), Counterclockwise));
      Sleep(SettleSeconds);
      operation := Idle;
      operationWell := None;
    }

    /** rinse: RinseCycles times down into the well, draw and expel the rinse volume; then up. */
    method Rinse(well: string) returns (status: Status)
      modifies this
      ensures Run(State(), status) == Rinsed(old(State()), well)
    {
      Log(RinsingIn(well));
      ghost var goal := Rinsed(old(State()), well);
      RinseBegins(old(State()), well, State());
      ghost var cur := State();
      var i := 0;
      while i < RinseCycles
        invariant i <= RinseCycles && cur == State()
        invariant RinseLeft(cur, well, i, goal)
      {
        status := MoveToWell(well, -PickupDepth);
        if status.Raised? {
          RinseCycleRaised(cur, well, i, goal);
          return;
        }
        Aspirate(RinseVolume);
        Dispense(RinseVolume);
        RinseCycleAt(cur, well, i, State(), goal);
        cur := State();
        i := i + 1;
      }
      RinseEnd(cur, well, i, goal);
      status := MoveToWell(well, 0.0);
    }

    /**
     * execute_transfer: pick up (down, aspirate, up), drop off (down,
     * dispense, up), then rinse when a rinse well is given.
     */
    method ExecuteTransfer(pickup: string, dropoff: string, volume: real, rinse: Option<string>) returns (status: Status)
      modifies this
      ensures Run(State(), status) == Transferred(old(State()), pickup, dropoff, volume, rinse)
    {
      Log(TransferOf(pickup, dropoff, volume));
      ghost var r0 := State();
      status := MoveToWell(pickup, -PickupDepth);
      if status.Raised? {
        return;
      }
      Aspirate(volume);
      status := MoveToWell(pickup, 0.0);
      assert Run(State(), status) == PickedUp(r0, pickup, volume);
      ghost var r1 := State();
      status := MoveToWell(dropoff, -DropoffDepth);
      if status.Raised? {
        return;
      }
      Dispense(volume);
      status := MoveToWell(dropoff, 0.0);
      assert Run(State(), status) == DroppedOff(r1, dropoff, volume);
      if rinse.Some? && rinse.value != "" {
        status := Rinse(rinse.value);
      }
    }

    /**
     * execute_step_with_cycles: before each cycle read the stop flag (False
     * when set), announce the cycle when there are several, transfer, and
     * wait between cycles; True once all cycles are done.
     */
    method ExecuteStepWithCycles(step: PipettingStep, env: Env) returns (status: Status)
      modifies this
      ensures Run(State(), status) == CyclesRun(old(State()), step, env)
    {
      ghost var goal := CyclesRun(State(), step, env);
      CyclesBegin(State(), step, env);
      ghost var cur := State();
      var cycle: nat := 0;
      while cycle < step.cycles
        invariant cur == State() && CyclesLeft(cur, step, env, cycle, goal)
        decreases step.cycles - cycle
      {
        var stop := PollStop(env);
        if stop {
          CyclesStopSeen(cur, step, env, cycle, goal);
          return StopSeen;
        }
        if step.cycles > 1 {
          Log(CycleOf(cycle + 1, step.cycles));
        }
        status := ExecuteTransfer(step.pickupWell, step.dropoffWell, step.volumeMl, step.rinseWell);
        if status.Raised? {
          CyclesRaised(cur, step, env, cycle, goal);
          return;
        }
        if step.waitTime > 0 && cycle < step.cycles - 1 {
          Log(WaitingBetweenCycles(step.waitTime));
          Sleep(step.waitTime as real);
        }
        CycleAt(cur, step, env, cycle, State(), goal);
        cur := State();
        cycle := cycle + 1;
      }
      CyclesEnd(cur, step, env, cycle, goal);
      status := Completed;
    }

    /**
     * The 'quantity' branch of execute_sequence's step: repeat the step's
     * cycles repetitionQuantity times. A stop flag read before a
     * repetition, or a cycle loop that saw one, ends the repetitions; the
     * wait is kept between repetitions only.
     */
    method RepeatByQuantity(step: PipettingStep, env: Env) returns (status: Status)
      modifies this
      ensures Run(State(), status) == RepetitionsFrom(old(State()), step, env, 0)
    {
      ghost var goal := RepetitionsFrom(State(), step, env, 0);
      RepetitionsBegin(State(), step, env);
      ghost var cur := State();
      var rep: nat := 0;
      while rep < step.repetitionQuantity
        invariant cur == State() && RepetitionsLeft(cur, step, env, rep, goal)
        decreases step.repetitionQuantity - rep
      {
        var stop := PollStop(env);
        if stop {
          RepetitionsStopped(cur, step, env, rep, goal);
          return Completed;
        }
        if step.repetitionQuantity > 1 {
          Log(RepetitionOf(rep + 1, step.repetitionQuantity));
        }
        status := ExecuteStepWithCycles(step, env);
        if !status.Completed? {
          RepetitionsCut(cur, step, env, rep, goal);
          if status == StopSeen {
            status := Completed;
          }
          return;
        }
        if rep < step.repetitionQuantity - 1 && step.waitTime > 0 {
          Log(WaitingBeforeRepetition(step.waitTime));
          Sleep(step.waitTime as real);
        }
        RepetitionAt(cur, step, env, rep, State(), goal);
        cur := State();
        rep := rep + 1;
      }
      RepetitionsEnd(cur, step, env, rep, goal);
      status := Completed;
    }

    /**
     * The 'timeFrequency' loop of execute_sequence's step, from clock
     * reading `start`: while less than the duration has elapsed, read the
     * stop flag, announce and run the step's cycles, then wait until the
     * next multiple of the interval (never past the duration).
     */
    method RepeatByTime(step: PipettingStep, env: Env, start: real) returns (status: Status)
      requires Truthy(step.repetitionInterval) && Truthy(step.repetitionDuration)
      modifies this
      ensures Run(State(), status) == TimedFrom(old(State()), step, env, start, 0)
    {
      var interval, duration := step.repetitionInterval.value, step.repetitionDuration.value;
      ghost var goal := TimedFrom(State(), step, env, start, 0);
      TimedBegin(State(), step, env, start);
      ghost var cur := State();
      var repCount: nat := 0;
      while true
        invariant cur == State() && TimedLeft(cur, step, env, start, repCount, goal)
        decreases |env.clock| - clockReads
      {
        var now := ReadClock(env);
        if now.None? {
          TimedClockOut(cur, step, env, start, repCount, goal);
          return Completed;
        }
        if !(now.value - start < duration as real) {
          TimedElapsed(cur, step, env, start, repCount, goal);
          return Completed;
        }
        var stop := PollStop(env);
        if stop {
          TimedStopped(cur, step, env, start, repCount, goal);
          return Completed;
        }
        repCount := repCount + 1;
        Log(RepetitionOf(repCount, Trunc(duration as real / interval as real)));
        assert State() == TimedRepetitionStart(cur, step, env, repCount);
        status := ExecuteStepWithCycles(step, env);
        ghost var c := Run(State(), status);
        if !status.Completed? {
          TimedCut(cur, step, env, start, repCount - 1, repCount, c, goal);
          if status == StopSeen {
            status := Completed;
          }
          return;
        }
        var later := ReadClock(env);
        if later.None? {
          TimedClockOutAfter(cur, step, env, start, repCount - 1, repCount, c, goal);
          return Completed;
        }
        ghost var r3 := State();
        assert r3 == c.rig.(clockReads := c.rig.clockReads + 1);
        var elapsed := later.value - start;
        assert elapsed == env.clock[c.rig.clockReads] - start;
        var remaining := (repCount * interval) as real - elapsed;
        if remaining > 0.0 && elapsed < duration as real {
          Log(WaitingUntilNext(remaining));
          Sleep(MinReal(remaining, duration as real - elapsed));
          assert State() == Waited(r3, WaitingUntilNext(remaining), MinReal(remaining, duration as real - elapsed));
        }
        TimedAt(cur, step, env, start, repCount - 1, repCount, c, State(), goal);
        cur := State();
      }
    }

    /**
     * The repetition part of a step of execute_sequence, by mode: repeat a
     * quantity of times, repeat against the clock, or (mode 'timeFrequency'
     * without an interval and a duration, or an unknown mode) run once.
     */
    method RunStepBody(step: PipettingStep, env: Env) returns (status: Status)
      modifies this
      ensures Run(State(), status) == StepBody(old(State()), step, env)
    {
      if step.repetitionMode == "quantity" {
        Log(RepetitionCount(step.repetitionQuantity));
        status := RepeatByQuantity(step, env);
      } else if step.repetitionMode == "timeFrequency" {
        if Truthy(step.repetitionInterval) && Truthy(step.repetitionDuration) {
          var interval, duration := step.repetitionInterval.value, step.repetitionDuration.value;
          Log(RepetitionEvery(interval, duration, Trunc(duration as real / interval as real)));
          var start := ReadClock(env);
          if start.None? {
            return Completed;
          }
          status := RepeatByTime(step, env, start.value);
        } else {
          Log(TimeModeIncomplete);
          status := ExecuteStepWithCycles(step, env);
          if !status.Raised? {
            status := Completed;
          }
        }
      } else {
        Log(UnknownMode(step.repetitionMode));
        status := ExecuteStepWithCycles(step, env);
        if !status.Raised? {
          status := Completed;
        }
      }
    }

    /** The report of a sequence cut short by a stop, and the flag cleared. */
    method ReportHalt(done: int, total: int)
      modifies this
      ensures State() == Halted(old(State()), done, total)
    {
      Log(Rule);
      Log(StoppedByUser);
      Log(CompletedOf(done, total));
      Log(Rule);
      stopRequested := false;
    }

    /**
     * execute_sequence: clear the stop flag, announce the sequence, then run
     * each step (its banner, its pipette count, its repetitions), reading
     * the flag before and after each step and waiting between steps.
     */
    method ExecuteSequence(steps: seq<PipettingStep>, env: Env) returns (status: Status)
      modifies this
      ensures Run(State(), status) == SequenceRun(old(State()), steps, env)
    {
      stopRequested := false;
      Log(Rule);
      Log(ExecutingSequence(|steps|));
      Log(Rule);
      ghost var goal := SequenceRun(old(State()), steps, env);
      SequenceBegin(old(State()), steps, env, State());
      ghost var cur := State();
      var i: nat := 0;
      while i < |steps|
        invariant cur == State() && SequenceLeft(cur, steps, env, i, goal)
        decreases |steps| - i
      {
        var stop := PollStop(env);
        if stop {
          ReportHalt(i, |steps|);
          SequenceHaltedBefore(cur, steps, env, i, goal);
          return Completed;
        }
        var step := steps[i];
        Log(StepOf(i + 1, |steps|));
        Log(StepPipettes(step.pipetteCount));
        pipetteCount := step.pipetteCount;
        assert State() == StepStart(cur, steps, env, i);
        status := RunStepBody(step, env);
        ghost var b := Run(State(), status);
        if status.Raised? {
          SequenceRaised(cur, steps, env, i, b, goal);
          return;
        }
        stop := PollStop(env);
        if stop {
          ReportHalt(i + 1, |steps|);
          SequenceHaltedAfter(cur, steps, env, i, b, goal);
          return Completed;
        }
        if step.waitTime > 0 && i + 1 < |steps| {
          Log(WaitingBeforeStep(step.waitTime));
          Sleep(step.waitTime as real);
        }
        SequenceStepAt(cur, steps, env, i, b, State(), goal);
        cur := State();
        i := i + 1;
      }
      Log(Rule);
      Log(SequenceComplete);
      Log(Rule);
      SequenceEnd(cur, steps, env, i, goal);
      status := Completed;
    }

    /** stop: log, set the flag, release every motor. */
    method Stop()
      modifies this
      ensures State() == Stopped(old(State()))
    {
      Log(StopRequested);
      stopRequested := true;
      trace := trace + [ReleaseAll];
    }

    /**
     * A read of stop_requested. A stop() called from the other thread just
     * before this read, as the environment says, takes its whole effect first.
     */
    method PollStop(env: Env) returns (stop: bool)
      modifies this
      ensures State() == Polled(old(State()), env)
      ensures stop == stopRequested
    {
      if env.stopAt(polls) {
        Stop();
      }
      polls := polls + 1;
      stop := stopRequested;
    }

    /** A read of time.time(): the next reading of the environment's clock, or None once it has none left. */
    method ReadClock(env: Env) returns (now: Option<real>)
      modifies this
      ensures old(clockReads) < |env.clock| ==>
                now == Some(env.clock[old(clockReads)]) && State() == old(State()).(clockReads := old(clockReads) + 1)
      ensures old(clockReads) >= |env.clock| ==> now == None && State() == old(State())
    {
      if clockReads >= |env.clock| {
        return None;
      }
      now := Some(env.clock[clockReads]);
      clockReads := clockReads + 1;
    }

    /** home: raise Z out of the well if below its top, move to A1 at the top, take the origin as the position. */
    method Home()
      modifies this
      ensures State() == Homed(old(State()))
    {
      Log(ReturningHome);
      if position.z < 0.0 {
        MoveMotor(Movement(3, Trunc(-position.z * StepsPerMmZ as real), Clockwise));
      }
      assert State() == HomeRaised(old(State()));
      var _ := MoveToWell(HomeWell, 0.0);
      position := Coords(0.0, 0.0, 0.0);
      Log(HomeReached);
    }

    /** get_current_well: the well under the current position, if any. */
    method GetCurrentWell() returns (w: Option<string>)
      ensures w == CoordinatesToWell(position)
    {
      w := CoordinatesToWell(position);
    }

    /** set_pipette_count: 1 or 3; any other count raises and changes nothing. */
    method SetPipetteCount(count: int) returns (r: Result<(), CountError>)
      modifies this
      ensures r.Success? <==> count == 1 || count == 3
      ensures r.Success? ==> State() == PipetteCountSet(old(State()), count).value
      ensures r.Failure? ==> r.error == InvalidPipetteCount(count) && State() == old(State())
    {
      if count != 1 && count != 3 {
        return Failure(InvalidPipetteCount(count));
      }
      pipetteCount := count;
      Log(PipetteCountChanged(count));
      return Success(());
    }
  }
}
