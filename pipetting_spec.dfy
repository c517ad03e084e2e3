/**
 * The pipetting controller's workflows as functions of an abstract rig
 * state. The rig is the controller's own fields (position, stop flag,
 * pipette configuration, status, log buffer) together with the ordered
 * trace of what it asked of the hardware: motor commands, pauses, and the
 * release of all coils.
 *
 * Two things come from outside the controller and are given as an
 * environment: stop() being called from another thread, which the
 * controller only notices when it reads its flag, and the wall clock read
 * by the time-frequency repetition mode.
 */
module PipettingSpec {
  import opened Wrappers
  import opened CoordinateMapper
  import opened StepperControl

  /** Plunger pulses per millilitre. */
  const PipetteStepsPerMl: int := 1000
  /** Depth below the top of a well for aspirating, and for dispensing. */
  const PickupDepth: real := 10.0
  const DropoffDepth: real := 5.0
  /** Height raised before a descending move, in millimetres. */
  const SafeHeight: real := 20.0
  const RinseCycles: nat := 3
  /** Volume drawn and expelled in each rinse cycle, in millilitres. */
  const RinseVolume: real := 0.5
  /** Pause after every plunger stroke, in seconds. */
  const SettleSeconds: real := 0.5
  /** Capacity of the log buffer. */
  const MaxLogs: nat := 100
  const HomeWell: string := "A1"

  /** The Z pulses of the safe raise. */
  const SafeSteps: int := Trunc(SafeHeight * StepsPerMmZ as real)

  /** What the controller reports it is doing, for a concurrent reader. */
  datatype Operation = Idle | Moving | Aspirating | Dispensing

  /**
   * One line of the log, by what it reports (the wall-clock timestamp in
   * front of every line is not modelled).
   */
  datatype LogEntry =
    | Initialized(well: Option<string>)
    | PipetteConfiguration(count: int)
    | MovingTo(wellId: string)
    | Arrived(wellId: string, at: Coords)
    | AspiratingVolume(volume: real)
    | DispensingVolume(volume: real)
    | RinsingIn(wellId: string)
    | TransferOf(pickup: string, dropoff: string, volume: real)
    | CycleOf(cycle: int, cycles: int)
    | WaitingBetweenCycles(seconds: int)
    | Rule
    | ExecutingSequence(steps: int)
    | StoppedByUser
    | CompletedOf(done: int, total: int)
    | StepOf(step: int, total: int)
    | StepPipettes(count: int)
    | RepetitionCount(quantity: int)
    | RepetitionOf(repetition: int, total: int)
    | WaitingBeforeRepetition(seconds: int)
    | RepetitionEvery(interval: int, duration: int, total: int)
    | WaitingUntilNext(remaining: real)
    | TimeModeIncomplete
    | UnknownMode(mode: string)
    | WaitingBeforeStep(seconds: int)
    | SequenceComplete
    | StopRequested
    | ReturningHome
    | HomeReached
    | PipetteCountChanged(count: int)

  /** What the controller asks of the hardware, in order. */
  datatype Event =
    | Motor(command: Movement)  // move_motor on the stepper controller
    | Sleep(seconds: real)      // time.sleep
    | ReleaseAll                // stop_all on the stepper controller

  /** One step of a pipetting sequence. */
  datatype PipettingStep = PipettingStep(
    pickupWell: string,
    dropoffWell: string,
    rinseWell: Option<string>,
    volumeMl: real,
    waitTime: int,
    cycles: int,
    repetitionMode: string,
    repetitionQuantity: int,
    repetitionInterval: Option<int>,
    repetitionDuration: Option<int>,
    pipetteCount: int)

  /** A step given only its wells, volume and wait: one cycle, once, with three pipettes. */
  function StepWithDefaults(pickup: string, dropoff: string, rinse: Option<string>, volume: real, wait: int): PipettingStep {
    PipettingStep(pickup, dropoff, rinse, volume, wait, 1, "quantity", 1, None, None, 3)
  }

  /**
   * The controller's state. `polls` counts the reads of the stop flag made
   * so far and `clockReads` the reads of the wall clock: they say which
   * answer of the environment the next read gets.
   */
  datatype Rig = Rig(
    position: Coords,
    stopRequested: bool,
    pipetteCount: int,
    operation: Operation,
    operationWell: Option<string>,
    logs: seq<LogEntry>,
    trace: seq<Event>,
    polls: nat,
    clockReads: nat)

  /**
   * The world outside the controller: stopAt(k) holds when stop() is called
   * from another thread just before the controller's k-th read of its flag;
   * clock holds the successive readings of time.time().
   */
  datatype Env = Env(stopAt: nat -> bool, clock: seq<real>)

  /**
   * How a workflow ended: normally, by noticing a stop request (the False
   * of execute_step_with_cycles), or by raising the error of a well
   * identifier.
   */
  datatype Status = Completed | StopSeen | Raised(error: WellError)

  datatype Run = Run(rig: Rig, status: Status)

  function Min(a: int, b: int): int {
    if a <= b then a else b
  }

  function MinReal(a: real, b: real): real {
    if a <= b then a else b
  }

  function Abs(n: int): nat {
    if n < 0 then -n else n
  }

  // ---------------------------------------------------------------------
  // The log buffer

  /** The last n entries of a sequence, in order: the reference for the buffer. */
  function LastN<T>(s: seq<T>, n: nat): seq<T> {
    s[|s| - Min(n, |s|)..]
  }

  /** log: the entry is appended and, when that overfills the buffer, the oldest entry goes. */
  function Pushed(buf: seq<LogEntry>, e: LogEntry): (b: seq<LogEntry>)
    ensures |buf| <= MaxLogs ==> |b| <= MaxLogs && b == LastN(buf + [e], MaxLogs)
  {
    var grown := buf + [e];
    if |grown| > MaxLogs then grown[1..] else grown
  }

  /** Several entries logged one after the other. */
  function PushedAll(buf: seq<LogEntry>, es: seq<LogEntry>): seq<LogEntry>
    decreases |es|
  {
    if es == [] then buf else PushedAll(Pushed(buf, es[0]), es[1..])
  }

  /** Python's start index of s[i:] for a sequence of length len. */
  function SliceStart(i: int, len: nat): (s: nat)
    ensures s <= len
    ensures 0 <= i ==> s == Min(i, len)
    ensures i < 0 ==> s == len - Min(-i, len)
  {
    if i < 0 then (if len + i < 0 then 0 else len + i)
    else if i > len then len
    else i
  }

  /**
   * get_logs(n): the last n entries when n > 0; the whole buffer when n is 0
   * (the slice [-0:] starts at 0); the buffer without its first -n entries
   * when n < 0.
   */
  function LastLogs(buf: seq<LogEntry>, n: int): (r: seq<LogEntry>)
    ensures n > 0 ==> r == LastN(buf, n)
    ensures n == 0 ==> r == buf
    ensures n < 0 ==> r == buf[Min(-n, |buf|)..]
  {
    if buf == [] then [] else buf[SliceStart(-n, |buf|)..]
  }

  function Logged(r: Rig, e: LogEntry): Rig {
    r.(logs := Pushed(r.logs, e))
  }

  function Traced(r: Rig, es: seq<Event>): Rig {
    r.(trace := r.trace + es)
  }

  // ---------------------------------------------------------------------
  // Motor commands

  function Issued(cs: seq<Movement>): (t: seq<Event>)
    ensures |t| == |cs| && forall i :: 0 <= i < |cs| ==> t[i] == Motor(cs[i])
  {
    if cs == [] then [] else [Motor(cs[0])] + Issued(cs[1..])
  }

  /** The motor commands of a trace, in order. */
  function Commands(t: seq<Event>): seq<Movement>
    decreases |t|
  {
    if t == [] then []
    else (if t[0].Motor? then [t[0].command] else []) + Commands(t[1..])
  }

  function DirectionOf(delta: int): Direction {
    if delta > 0 then Clockwise else Counterclockwise
  }

  /**
   * The commands of move_to_well for the given step deltas: a descending
   * move first raises Z by the safe height; then X, then Y; then Z to its
   * target, through the safe height when descending. A zero delta issues no
   * command.
   */
  function MoveCommands(dx: int, dy: int, dz: int): seq<Movement> {
    SafeRaise(dz) + AxisMove(1, dx) + AxisMove(2, dy) + ZMove(dz)
  }

  /** A descending move first raises Z by the safe height. */
  function SafeRaise(dz: int): seq<Movement> {
    if dz < 0 then [Movement(3, SafeSteps, Clockwise)] else []
  }

  /** The command for one axis motor, none for a zero delta. */
  function AxisMove(motor: int, delta: int): seq<Movement> {
    if delta != 0 then [Movement(motor, Abs(delta), DirectionOf(delta))] else []
  }

  /** Z to its target: through the safe height when descending. */
  function ZMove(dz: int): seq<Movement> {
    if dz < 0 then [Movement(3, Abs(dz) + SafeSteps, Counterclockwise)]
    else if dz > 0 then [Movement(3, dz, Clockwise)]
    else []
  }

  /** The target of move_to_well: the well's centre lowered by the offset. */
  function Target(c: Coords, zOffset: real): Coords {
    c.(z := c.z + zOffset)
  }

  /** The step deltas from the current position to the target, axis by axis. */
  function Deltas(from: Coords, to: Coords): (int, int, int) {
    var t := CoordinatesToSteps(to);
    var c := CoordinatesToSteps(from);
    (t.0 - c.0, t.1 - c.1, t.2 - c.2)
  }

  // ---------------------------------------------------------------------
  // The operations

  /**
   * move_to_well: report Moving at the well; on a bad identifier raise with
   * that status left in place. Otherwise issue the commands for the deltas,
   * take the target as the new position and report Idle.
   */
  function MovedToWell(r: Rig, id: string, zOffset: real): (run: Run)
    ensures run.status != StopSeen
    ensures run.rig.clockReads == r.clockReads && run.rig.polls == r.polls
    ensures run.rig.stopRequested == r.stopRequested && run.rig.pipetteCount == r.pipetteCount
  {
    var moving := Logged(r.(operation := Moving, operationWell := Some(id)), MovingTo(id));
    match WellToCoordinates(id)
    case Failure(e) => Run(moving, Raised(e))
    case Success(c) =>
      var target := Target(c, zOffset);
      var d := Deltas(r.position, target);
      var arrived := Traced(moving, Issued(MoveCommands(d.0, d.1, d.2))).(position := target);
      Run(Logged(arrived, Arrived(id, target)).(operation := Idle, operationWell := None), Completed)
  }

  /** The plunger pulses for a volume. */
  function PlungerSteps(volume: real): int {
    Trunc(volume * PipetteStepsPerMl as real)
  }

  /** aspirate: draw the volume with the plunger (motor 4 clockwise), then settle. */
  function Aspirated(r: Rig, volume: real): (r': Rig)
    ensures r'.position == r.position && r'.operation == Idle
    ensures r'.trace == r.trace + [Motor(Movement(4, PlungerSteps(volume), Clockwise)), Sleep(SettleSeconds)]
  {
    Traced(Logged(r, AspiratingVolume(volume)),
           [Motor(Movement(4, PlungerSteps(volume), Clockwise)), Sleep(SettleSeconds)])
      .(operation := Idle, operationWell := None)
  }

  /** dispense: expel the volume (motor 4 counter-clockwise), then settle. */
  function Dispensed(r: Rig, volume: real): (r': Rig)
    ensures r'.position == r.position && r'.operation == Idle
    ensures r'.trace == r.trace + [Motor(Movement(4, PlungerSteps(volume), Counterclockwise)), Sleep(SettleSeconds)]
  {
    Traced(Logged(r, DispensingVolume(volume)),
           [Motor(Movement(4, PlungerSteps(volume), Counterclockwise)), Sleep(SettleSeconds)])
      .(operation := Idle, operationWell := None)
  }

  /**
   * The rinse cycles from cycle i on: each goes down into the rinse well,
   * draws and expels the rinse volume; afterwards the tip is raised to the
   * top of the well.
   */
  function RinsedFrom(r: Rig, w: string, i: nat): (run: Run)
    ensures run.status != StopSeen
    ensures run.rig.clockReads == r.clockReads && run.rig.polls == r.polls
    ensures run.rig.stopRequested == r.stopRequested
    decreases RinseCycles - i
  {
    if i >= RinseCycles then MovedToWell(r, w, 0.0)
    else
      var down := MovedToWell(r, w, -PickupDepth);
      if down.status.Raised? then down
      else RinsedFrom(Dispensed(Aspirated(down.rig, RinseVolume), RinseVolume), w, i + 1)
  }

  function Rinsed(r: Rig, w: string): (run: Run)
    ensures run.status != StopSeen
    ensures run.rig.clockReads == r.clockReads && run.rig.polls == r.polls
    ensures run.rig.stopRequested == r.stopRequested
  {
    RinsedFrom(Logged(r, RinsingIn(w)), w, 0)
  }

  /** A rinse well is used when it is given and is not the empty string. */
  predicate RinseGiven(rinse: Option<string>) {
    rinse.Some? && rinse.value != ""
  }

  /**
   * execute_transfer: pick up (down, aspirate, up), drop off (down,
   * dispense, up), then rinse when a rinse well is given. A bad identifier
   * raises at the first move to it.
   */
  function Transferred(r: Rig, pickup: string, dropoff: string, volume: real, rinse: Option<string>): (run: Run)
    ensures run.status != StopSeen
    ensures run.rig.clockReads == r.clockReads && run.rig.polls == r.polls
    ensures run.rig.stopRequested == r.stopRequested
  {
    var picked := PickedUp(Logged(r, TransferOf(pickup, dropoff, volume)), pickup, volume);
    if picked.status.Raised? then picked else
    var dropped := DroppedOff(picked.rig, dropoff, volume);
    if dropped.status.Raised? || !RinseGiven(rinse) then dropped
    else Rinsed(dropped.rig, rinse.value)
  }

  /** The pick-up half of a transfer: down into the well, aspirate, back up to its top. */
  function PickedUp(r: Rig, pickup: string, volume: real): (run: Run)
    ensures run.status != StopSeen
    ensures run.rig.clockReads == r.clockReads && run.rig.polls == r.polls
    ensures run.rig.stopRequested == r.stopRequested
  {
    var down := MovedToWell(r, pickup, -PickupDepth);
    if down.status.Raised? then down
    else MovedToWell(Aspirated(down.rig, volume), pickup, 0.0)
  }

  /** The drop-off half of a transfer: down into the well, dispense, back up to its top. */
  function DroppedOff(r: Rig, dropoff: string, volume: real): (run: Run)
    ensures run.status != StopSeen
    ensures run.rig.clockReads == r.clockReads && run.rig.polls == r.polls
    ensures run.rig.stopRequested == r.stopRequested
  {
    var down := MovedToWell(r, dropoff, -DropoffDepth);
    if down.status.Raised? then down
    else MovedToWell(Dispensed(down.rig, volume), dropoff, 0.0)
  }

  /** stop: log, set the flag, release every motor. */
  function Stopped(r: Rig): (r': Rig)
    ensures r'.stopRequested && r'.position == r.position
    ensures r'.trace == r.trace + [ReleaseAll]
  {
    Traced(Logged(r, StopRequested).(stopRequested := true), [ReleaseAll])
  }

  /**
   * One read of the stop flag. A stop() from the other thread that lands
   * just before the read has its whole effect first.
   */
  function Polled(r: Rig, env: Env): (r': Rig)
    ensures r'.polls == r.polls + 1 && r'.clockReads == r.clockReads
    ensures r'.stopRequested <==> r.stopRequested || env.stopAt(r.polls)
    ensures r'.position == r.position && r'.pipetteCount == r.pipetteCount
  {
    (if env.stopAt(r.polls) then Stopped(r) else r).(polls := r.polls + 1)
  }

  /** The wait of a loop: a log line and the pause. */
  function Waited(r: Rig, e: LogEntry, seconds: real): Rig {
    Traced(Logged(r, e), [Sleep(seconds)])
  }

  /** One cycle's transfer, announced when the step has several cycles. */
  function CycleTransfer(r: Rig, step: PipettingStep, cycle: nat): (run: Run)
    ensures run.status != StopSeen
    ensures run.rig.clockReads == r.clockReads && run.rig.polls == r.polls
    ensures run.rig.stopRequested == r.stopRequested
  {
    var r1 := if step.cycles > 1 then Logged(r, CycleOf(cycle + 1, step.cycles)) else r;
    Transferred(r1, step.pickupWell, step.dropoffWell, step.volumeMl, step.rinseWell)
  }

  /** The wait after a cycle: only when the step waits and the cycle is not the last. */
  function AfterCycle(r: Rig, step: PipettingStep, cycle: nat): (r': Rig)
    ensures r'.trace == r.trace + (if step.waitTime > 0 && cycle < step.cycles - 1 then [Sleep(step.waitTime as real)] else [])
    ensures r'.polls == r.polls && r'.clockReads == r.clockReads && r'.stopRequested == r.stopRequested
  {
    if step.waitTime > 0 && cycle < step.cycles - 1
    then Waited(r, WaitingBetweenCycles(step.waitTime), step.waitTime as real)
    else r
  }

  /**
   * execute_step_with_cycles from cycle `cycle` on: before each transfer
   * the stop flag is read and a set flag ends the loop with False; between
   * cycles (never after the last) the step's wait is kept.
   */
  function CyclesFrom(r: Rig, step: PipettingStep, env: Env, cycle: nat): (run: Run)
    ensures run.rig.clockReads == r.clockReads && run.rig.polls >= r.polls
    ensures run.status == StopSeen ==> run.rig.stopRequested
    ensures run.status == Completed ==> run.rig.stopRequested == r.stopRequested
    ensures run.status == Completed && cycle < step.cycles ==> !run.rig.stopRequested
    decreases step.cycles - cycle
  {
    if cycle >= step.cycles then Run(r, Completed)
    else
      var r1 := Polled(r, env);
      if r1.stopRequested then Run(r1, StopSeen)
      else
        var t := CycleTransfer(r1, step, cycle);
        if t.status.Raised? then t
        else CyclesFrom(AfterCycle(t.rig, step, cycle), step, env, cycle + 1)
  }

  function CyclesRun(r: Rig, step: PipettingStep, env: Env): (run: Run)
    ensures run.rig.clockReads == r.clockReads && run.rig.polls >= r.polls
    ensures run.status == StopSeen ==> run.rig.stopRequested
    ensures run.status == Completed ==> run.rig.stopRequested == r.stopRequested
  {
    CyclesFrom(r, step, env, 0)
  }

  /** One repetition's cycles, announced when the step repeats. */
  function RepetitionRun(r: Rig, step: PipettingStep, env: Env, rep: nat): (run: Run)
    ensures run.rig.clockReads == r.clockReads && run.rig.polls >= r.polls
    ensures run.status == StopSeen ==> run.rig.stopRequested
    ensures run.status == Completed ==> run.rig.stopRequested == r.stopRequested
  {
    var q := step.repetitionQuantity;
    CyclesRun(if q > 1 then Logged(r, RepetitionOf(rep + 1, q)) else r, step, env)
  }

  /** The wait after a repetition: only when it is not the last and the step waits. */
  function AfterRepetition(r: Rig, step: PipettingStep, rep: nat): (r': Rig)
    ensures r'.trace == r.trace + (if rep < step.repetitionQuantity - 1 && step.waitTime > 0 then [Sleep(step.waitTime as real)] else [])
    ensures r'.polls == r.polls && r'.clockReads == r.clockReads && r'.stopRequested == r.stopRequested
  {
    if rep < step.repetitionQuantity - 1 && step.waitTime > 0
    then Waited(r, WaitingBeforeRepetition(step.waitTime), step.waitTime as real)
    else r
  }

  /**
   * Quantity mode from repetition `rep` on: a set stop flag, or a cycle
   * loop that saw one, ends the repetitions; the wait is kept between
   * repetitions only.
   */
  function RepetitionsFrom(r: Rig, step: PipettingStep, env: Env, rep: nat): (run: Run)
    ensures run.status != StopSeen
    ensures run.rig.clockReads == r.clockReads && run.rig.polls >= r.polls
    ensures run.status == Completed && !run.rig.stopRequested ==> !r.stopRequested
    decreases step.repetitionQuantity - rep
  {
    if rep >= step.repetitionQuantity then Run(r, Completed)
    else
      var r1 := Polled(r, env);
      if r1.stopRequested then Run(r1, Completed)
      else
        var c := RepetitionRun(r1, step, env, rep);
        if c.status.Raised? then c
        else if c.status == StopSeen then Run(c.rig, Completed)
        else RepetitionsFrom(AfterRepetition(c.rig, step, rep), step, env, rep + 1)
  }

  /** Python's truth value of an optional count: given and not zero. */
  predicate Truthy(n: Option<int>) {
    n.Some? && n.value != 0
  }

  /**
   * Time-frequency mode after `reps` repetitions, started at clock reading
   * `start`. The loop runs while less than the duration has elapsed; after
   * each repetition it sleeps until the next multiple of the interval,
   * cut short at the end of the duration. A run that needs more clock
   * readings than the environment holds ends its loop there, as if the
   * duration had passed.
   */
  function TimedFrom(r: Rig, step: PipettingStep, env: Env, start: real, reps: nat): (run: Run)
    requires Truthy(step.repetitionInterval) && Truthy(step.repetitionDuration)
    ensures run.status != StopSeen
    ensures run.rig.clockReads >= r.clockReads && run.rig.polls >= r.polls
    ensures run.status == Completed && !run.rig.stopRequested ==> !r.stopRequested
    decreases |env.clock| - r.clockReads
  {
    var interval, duration := step.repetitionInterval.value, step.repetitionDuration.value;
    if r.clockReads >= |env.clock| then Run(r, Completed)
    else
      var now := env.clock[r.clockReads];
      var r0 := r.(clockReads := r.clockReads + 1);
      if !(now - start < duration as real) then Run(r0, Completed)
      else
        var r1 := Polled(r0, env);
        if r1.stopRequested then Run(r1, Completed)
        else
          var n := reps + 1;
          var r2 := Logged(r1, RepetitionOf(n, Trunc(duration as real / interval as real)));
          var c := CyclesRun(r2, step, env);
          if c.status.Raised? then c
          else if c.status == StopSeen then Run(c.rig, Completed)
          else if c.rig.clockReads >= |env.clock| then Run(c.rig, Completed)
          else
            var elapsed := env.clock[c.rig.clockReads] - start;
            var r3 := c.rig.(clockReads := c.rig.clockReads + 1);
            var remaining := (n * interval) as real - elapsed;
            var r4 := if remaining > 0.0 && elapsed < duration as real
                      then Waited(r3, WaitingUntilNext(remaining), MinReal(remaining, duration as real - elapsed))
                      else r3;
            TimedFrom(r4, step, env, start, n)
  }

  /**
   * The repetition part of one step of execute_sequence, by mode:
   * 'quantity' repeats; 'timeFrequency' with an interval and a duration
   * repeats against the clock, and without them runs once; any other mode
   * runs once. Whether a single run saw a stop is not looked at here.
   */
  function StepBody(r: Rig, step: PipettingStep, env: Env): (run: Run)
    ensures run.status != StopSeen
    ensures run.rig.polls >= r.polls && run.rig.clockReads >= r.clockReads
    ensures run.status == Completed && !run.rig.stopRequested ==> !r.stopRequested
  {
    if step.repetitionMode == "quantity" then
      RepetitionsFrom(Logged(r, RepetitionCount(step.repetitionQuantity)), step, env, 0)
    else if step.repetitionMode == "timeFrequency" then
      if Truthy(step.repetitionInterval) && Truthy(step.repetitionDuration) then
        var interval, duration := step.repetitionInterval.value, step.repetitionDuration.value;
        var r1 := Logged(r, RepetitionEvery(interval, duration, Trunc(duration as real / interval as real)));
        if r1.clockReads >= |env.clock| then Run(r1, Completed)
        else TimedFrom(r1.(clockReads := r1.clockReads + 1), step, env, env.clock[r1.clockReads], 0)
      else
        var c := CyclesRun(Logged(r, TimeModeIncomplete), step, env);
        if c.status.Raised? then c else Run(c.rig, Completed)
    else
      var c := CyclesRun(Logged(r, UnknownMode(step.repetitionMode)), step, env);
      if c.status.Raised? then c else Run(c.rig, Completed)
  }

  /** The end of a sequence cut short by a stop: the report, and the flag cleared. */
  function Halted(r: Rig, done: int, total: int): (r': Rig)
    ensures !r'.stopRequested && r'.trace == r.trace && r'.position == r.position
  {
    var r1 := Logged(Logged(Logged(Logged(r, Rule), StoppedByUser), CompletedOf(done, total)), Rule);
    r1.(stopRequested := false)
  }

  /**
   * execute_sequence from step i on (0-based). The flag is read before each
   * step and again after it; either read that finds it set reports the
   * steps done, clears it and ends the sequence.
   */
  function SequenceFrom(r: Rig, steps: seq<PipettingStep>, env: Env, i: nat): (run: Run)
    requires i <= |steps|
    ensures run.status != StopSeen
    ensures run.status == Completed ==> !run.rig.stopRequested || (i == |steps| && r.stopRequested)
    decreases |steps| - i
  {
    var n := |steps|;
    if i == n then
      Run(Logged(Logged(Logged(r, Rule), SequenceComplete), Rule), Completed)
    else
      var r1 := Polled(r, env);
      if r1.stopRequested then Run(Halted(r1, i, n), Completed)
      else
        var step := steps[i];
        var r2 := Logged(Logged(r1, StepOf(i + 1, n)), StepPipettes(step.pipetteCount))
                    .(pipetteCount := step.pipetteCount);
        var b := StepBody(r2, step, env);
        if b.status.Raised? then b
        else
          var r3 := Polled(b.rig, env);
          if r3.stopRequested then Run(Halted(r3, i + 1, n), Completed)
          else
            var r4 := if step.waitTime > 0 && i + 1 < n
                      then Waited(r3, WaitingBeforeStep(step.waitTime), step.waitTime as real)
                      else r3;
            SequenceFrom(r4, steps, env, i + 1)
  }

  /** execute_sequence: clear the flag, announce the sequence, run its steps. */
  function SequenceRun(r: Rig, steps: seq<PipettingStep>, env: Env): (run: Run)
    ensures run.status != StopSeen
    ensures run.status == Completed ==> !run.rig.stopRequested
  {
    var r1 := Logged(Logged(Logged(r.(stopRequested := false), Rule), ExecutingSequence(|steps|)), Rule);
    SequenceFrom(r1, steps, env, 0)
  }

  /** The Z raise home makes first, when the tip is below the top of a well. */
  function HomeRaise(z: real): seq<Event> {
    if z < 0.0 then [Motor(Movement(3, Trunc(-z * StepsPerMmZ as real), Clockwise))] else []
  }

  /** home up to its move: the log line and the raise; the position is not updated. */
  function HomeRaised(r: Rig): (r': Rig)
    ensures r'.trace == r.trace + HomeRaise(r.position.z) && r'.position == r.position
  {
    Traced(Logged(r, ReturningHome), HomeRaise(r.position.z))
  }

  /**
   * home: when the tip is below the top of a well, raise Z by its depth;
   * then move to A1 at the top; then take the origin as the position.
   */
  function Homed(r: Rig): (r': Rig)
    ensures r'.position == Coords(0.0, 0.0, 0.0)
    ensures r'.trace == MovedToWell(HomeRaised(r), HomeWell, 0.0).rig.trace
  {
    var m := MovedToWell(HomeRaised(r), HomeWell, 0.0);
    Logged(m.rig.(position := Coords(0.0, 0.0, 0.0)), HomeReached)
  }

  datatype CountError = InvalidPipetteCount(count: int)

  /** set_pipette_count: 1 or 3 pipettes; anything else raises and changes nothing. */
  function PipetteCountSet(r: Rig, count: int): (res: Result<Rig, CountError>)
    ensures res.Success? <==> count == 1 || count == 3
    ensures res.Success? ==> res.value.pipetteCount == count && res.value.position == r.position
    ensures res.Failure? ==> res.error == InvalidPipetteCount(count)
  {
    if count != 1 && count != 3 then Failure(InvalidPipetteCount(count))
    else Success(Logged(r.(pipetteCount := count), PipetteCountChanged(count)))
  }
}
