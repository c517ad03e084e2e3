/**
 * Four unipolar stepper motors driven through coil tables. Each motor counts
 * the signed number of pulses it has been given and walks a cyclic index
 * into its current table (half-step or full-step); the controller owns the
 * motors under the identifiers 1 to 4 and routes commands to them.
 *
 * The pins themselves are not driven here: `coils` records the last pattern
 * written to a motor's four inputs, which is what the pins would show.
 */
module StepperControl {
  import opened Wrappers

  datatype Direction = Clockwise | Counterclockwise

  /** The two coil tables a motor can step through. */
  datatype CoilTable = HalfStepTable | FullStepTable

  /** HALF_STEP_SEQUENCE (smoother, less torque) and FULL_STEP_SEQUENCE (more torque). */
  function Entries(t: CoilTable): (e: seq<seq<int>>)
    ensures |e| == if t == HalfStepTable then 8 else 4
    ensures forall i :: 0 <= i < |e| ==> |e[i]| == 4
  {
    match t
    case HalfStepTable =>
      [[1, 0, 0, 0], [1, 1, 0, 0], [0, 1, 0, 0], [0, 1, 1, 0],
       [0, 0, 1, 0], [0, 0, 1, 1], [0, 0, 0, 1], [1, 0, 0, 1]]
    case FullStepTable =>
      [[1, 0, 0, 0], [0, 1, 0, 0], [0, 0, 1, 0], [0, 0, 0, 1]]
  }

  /** All four inputs low. */
  const Released: seq<int> := [0, 0, 0, 0]

  /**
   * The signed change of a step counter after `steps` pulses: a non-positive
   * count gives no pulse at all; clockwise counts up, anything else down.
   */
  function SignedSteps(direction: Direction, steps: int): (d: int)
    ensures steps <= 0 ==> d == 0
    ensures steps > 0 && direction == Clockwise ==> d == steps
    ensures steps > 0 && direction == Counterclockwise ==> d == -steps
  {
    if steps <= 0 then 0 else if direction == Clockwise then steps else -steps
  }

  /**
   * Where a cyclic index into table `t` lands after moving `delta` places;
   * Python's % on a positive modulus is never negative, as Dafny's is.
   */
  function Cycle(index: int, delta: int, t: CoilTable): (r: int)
    ensures 0 <= r < |Entries(t)|
  {
    if t == HalfStepTable then (index + delta) % 8 else (index + delta) % 4
  }

  /** Taking whole turns of the half-step table off a count does not change where it lands. */
  lemma EightTurns(y: int, q: int)
    ensures (y - q * 8) % 8 == y % 8
  {
    assert y == (y / 8) * 8 + y % 8;
    assert y - q * 8 == (y / 8 - q) * 8 + y % 8;
  }

  /** The same for the full-step table. */
  lemma FourTurns(y: int, q: int)
    ensures (y - q * 4) % 4 == y % 4
  {
    assert y == (y / 4) * 4 + y % 4;
    assert y - q * 4 == (y / 4 - q) * 4 + y % 4;
  }

  /** Moving one place at a time agrees with moving all the places at once. */
  lemma CycleStep(index: int, delta: int, one: int, t: CoilTable)
    ensures Cycle(Cycle(index, delta, t), one, t) == Cycle(index, delta + one, t)
  {
    var x := index + delta;
    if t == HalfStepTable {
      EightTurns(x + one, x / 8);
      assert x % 8 + one == (x + one) - (x / 8) * 8;
    } else {
      FourTurns(x + one, x / 4);
      assert x % 4 + one == (x + one) - (x / 4) * 4;
    }
  }

  /** n places forward and n places back restore an index of the table. */
  lemma CycleUndo(index: int, n: int, t: CoilTable)
    requires 0 <= index < |Entries(t)|
    ensures Cycle(Cycle(index, n, t), -n, t) == index
  {
    CycleStep(index, n, -n, t);
  }

  /** A cyclic index already inside the table stays where it is after no move. */
  lemma CycleNone(index: int, t: CoilTable)
    requires 0 <= index < |Entries(t)|
    ensures Cycle(index, 0, t) == index
  {
  }

  // ---------------------------------------------------------------------
  // One motor

  /** Everything about a motor that its methods change. */
  datatype MotorState = MotorState(
    position: int,        // current_position
    stepSequence: CoilTable,
    sequenceIndex: int,   // the next entry of the table to write
    coils: seq<int>)      // the pattern last written to the four inputs

  predicate ValidState(s: MotorState) {
    && 0 <= s.sequenceIndex < |Entries(s.stepSequence)|
    && |s.coils| == 4
  }

  /** A motor as constructed: at 0, half-step table from its first entry, inputs low. */
  const InitialState: MotorState := MotorState(0, HalfStepTable, 0, Released)

  /**
   * One pulse: write the table entry at the index to the inputs, then move
   * the index one place along the table and the counter by one, forward for
   * clockwise and backward for anything else.
   */
  function Pulse(s: MotorState, direction: Direction): (t: MotorState)
    requires ValidState(s)
    ensures ValidState(t)
  {
    var unit := if direction == Clockwise then 1 else -1;
    s.(position := s.position + unit,
       sequenceIndex := Cycle(s.sequenceIndex, unit, s.stepSequence),
       coils := Entries(s.stepSequence)[s.sequenceIndex])
  }

  /** The state after `steps` pulses one after the other; none at all when steps <= 0. */
  function Stepped(s: MotorState, direction: Direction, steps: int): (t: MotorState)
    requires ValidState(s)
    ensures ValidState(t)
    decreases steps
  {
    if steps <= 0 then s else Pulse(Stepped(s, direction, steps - 1), direction)
  }

  /**
   * n pulses move the counter by exactly n signed by the direction and the
   * index n places along the table (mod its length); the last pattern
   * written is the one n - 1 places along.
   */
  lemma {:induction false} SteppedClosedForm(s: MotorState, direction: Direction, steps: int)
    requires ValidState(s)
    ensures var t := Stepped(s, direction, steps);
            && t.position == s.position + SignedSteps(direction, steps)
            && t.stepSequence == s.stepSequence
            && t.sequenceIndex == Cycle(s.sequenceIndex, SignedSteps(direction, steps), s.stepSequence)
            && (steps <= 0 ==> t.coils == s.coils)
            && (steps > 0 ==>
                  t.coils == Entries(s.stepSequence)[Cycle(s.sequenceIndex, SignedSteps(direction, steps - 1), s.stepSequence)])
    decreases steps
  {
    if steps > 0 {
      var unit := if direction == Clockwise then 1 else -1;
      SteppedClosedForm(s, direction, steps - 1);
      CycleStep(s.sequenceIndex, SignedSteps(direction, steps - 1), unit, s.stepSequence);
      assert SignedSteps(direction, steps - 1) + unit == SignedSteps(direction, steps);
      if steps == 1 {
        CycleNone(s.sequenceIndex, s.stepSequence);
      }
    }
  }

  /**
   * n clockwise pulses followed by n counter-clockwise pulses restore the
   * counter and the table position.
   */
  lemma StepUndo(s: MotorState, n: int)
    requires ValidState(s)
    ensures var t := Stepped(Stepped(s, Clockwise, n), Counterclockwise, n);
            t.position == s.position && t.stepSequence == s.stepSequence && t.sequenceIndex == s.sequenceIndex
  {
    var u := Stepped(s, Clockwise, n);
    SteppedClosedForm(s, Clockwise, n);
    SteppedClosedForm(u, Counterclockwise, n);
    if n > 0 {
      CycleUndo(s.sequenceIndex, n, s.stepSequence);
    } else {
      CycleNone(s.sequenceIndex, s.stepSequence);
    }
  }

  class StepperMotor {
    /** The four GPIO inputs IN1..IN4. */
    const pins: seq<int>
    const name: string
    var position: int
    var stepSequence: CoilTable
    var sequenceIndex: int
    var coils: seq<int>

    function State(): MotorState
      reads this
    {
      MotorState(position, stepSequence, sequenceIndex, coils)
    }

    ghost predicate Valid()
      reads this
    {
      ValidState(State())
    }

    constructor (pins: seq<int>, name: string)
      ensures Valid()
      ensures this.pins == pins && this.name == name
      ensures State() == InitialState
    {
      this.pins := pins;
      this.name := name;
      position := 0;
      stepSequence := HalfStepTable;
      sequenceIndex := 0;
      coils := Released;
    }

    /**
     * step: `steps` pulses in `direction`; the counter moves by exactly the
     * signed count and the index that many places along the table.
     */
    method Step(direction: Direction, steps: int)
      requires Valid()
      modifies this
      ensures Valid()
      ensures State() == Stepped(old(State()), direction, steps)
      ensures position == old(position) + SignedSteps(direction, steps)
      ensures stepSequence == old(stepSequence)
      ensures sequenceIndex == Cycle(old(sequenceIndex), SignedSteps(direction, steps), stepSequence)
    {
      var k := 0;
      while k < steps
        invariant 0 <= k && (steps >= 0 ==> k <= steps) && (steps < 0 ==> k == 0)
        invariant Valid()
        invariant State() == Stepped(old(State()), direction, k)
      {
        ghost var before := State();
        coils := Entries(stepSequence)[sequenceIndex];
        if direction == Clockwise {
          sequenceIndex := Cycle(sequenceIndex, 1, stepSequence);
          position := position + 1;
        } else {
          sequenceIndex := Cycle(sequenceIndex, -1, stepSequence);
          position := position - 1;
        }
        assert State() == Pulse(before, direction);
        k := k + 1;
      }
      SteppedClosedForm(old(State()), direction, steps);
    }

    /** use_full_step: the full-step table from its first entry; nothing else changes. */
    method UseFullStep()
      requires Valid()
      modifies this
      ensures Valid()
      ensures State() == old(State()).(stepSequence := FullStepTable, sequenceIndex := 0)
    {
      stepSequence := FullStepTable;
      sequenceIndex := 0;
    }

    /** use_half_step: the half-step table from its first entry; nothing else changes. */
    method UseHalfStep()
      requires Valid()
      modifies this
      ensures Valid()
      ensures State() == old(State()).(stepSequence := HalfStepTable, sequenceIndex := 0)
    {
      stepSequence := HalfStepTable;
      sequenceIndex := 0;
    }

    /** stop: all inputs low; the counter and the table position are kept. */
    method Stop()
      requires Valid()
      modifies this
      ensures Valid()
      ensures State() == old(State()).(coils := Released)
    {
      coils := Released;
    }

    method GetPosition() returns (p: int)
      ensures p == position
    {
      p := position;
    }

    /** reset_position: the counter reads 0; nothing moves. */
    method ResetPosition()
      requires Valid()
      modifies this
      ensures Valid()
      ensures State() == old(State()).(position := 0)
    {
      position := 0;
    }
  }

  // ---------------------------------------------------------------------
  // Batches of commands over the four motors

  /** The identifiers of the four motors (X, Y, Z, pipette plunger). */
  const MotorIds: set<int> := {1, 2, 3, 4}

  /** The GPIO inputs of each motor. */
  const MotorPins: map<int, seq<int>> :=
    map[1 := [4, 17, 27, 22], 2 := [23, 24, 25, 5], 3 := [6, 12, 13, 16], 4 := [19, 26, 20, 21]]

  datatype MotorError = InvalidMotorId(motorId: int)

  /** One motor command: which motor, how many pulses, which way. */
  datatype Movement = Movement(motor: int, steps: int, direction: Direction)

  /** The states of the four motors by identifier. */
  predicate ValidMotors(m: map<int, MotorState>) {
    m.Keys == MotorIds && forall i :: i in m ==> ValidState(m[i])
  }

  /** get_all_positions of a set of motor states. */
  function PositionsOf(m: map<int, MotorState>): (p: map<int, int>)
    ensures p.Keys == m.Keys
    ensures forall i :: i in m ==> p[i] == m[i].position
  {
    map i | i in m :: m[i].position
  }

  predicate ValidMoves(ms: seq<Movement>) {
    forall k :: 0 <= k < |ms| ==> ms[k].motor in MotorIds
  }

  /**
   * The motors after a batch of commands applied in list order. The first
   * command naming an unknown motor raises, so it and everything after it
   * are not applied.
   */
  function ApplyMoves(m: map<int, MotorState>, ms: seq<Movement>): (r: map<int, MotorState>)
    requires ValidMotors(m)
    ensures ValidMotors(r)
    decreases |ms|
  {
    if ms == [] || ms[0].motor !in m then m
    else
      var c := ms[0];
      ApplyMoves(m[c.motor := Stepped(m[c.motor], c.direction, c.steps)], ms[1..])
  }

  /** The first command of the batch that names an unknown motor, or None. */
  function FirstInvalid(ms: seq<Movement>): (r: Option<nat>)
    ensures r.None? <==> ValidMoves(ms)
    ensures r.Some? ==> r.value < |ms| && ms[r.value].motor !in MotorIds && ValidMoves(ms[..r.value])
  {
    if ms == [] then None
    else if ms[0].motor !in MotorIds then Some(0)
    else
      match FirstInvalid(ms[1..])
      case None =>
        assert forall k :: 0 < k < |ms| ==> ms[k] == ms[1..][k - 1];
        None
      case Some(i) =>
        assert ms[..i + 1][1..] == ms[1..][..i];
        Some(i + 1)
  }

  /** The net signed pulses a batch gives to one motor. */
  function NetSteps(ms: seq<Movement>, id: int): int
    decreases |ms|
  {
    if ms == [] then 0
    else (if ms[0].motor == id then SignedSteps(ms[0].direction, ms[0].steps) else 0) + NetSteps(ms[1..], id)
  }

  /** A batch of commands mentions the motor. */
  predicate Names(ms: seq<Movement>, id: int) {
    exists k :: 0 <= k < |ms| && ms[k].motor == id
  }

  lemma ValidMovesTail(ms: seq<Movement>)
    requires ms != [] && ValidMoves(ms)
    ensures ms[0].motor in MotorIds && ValidMoves(ms[1..])
  {
    forall k | 0 <= k < |ms| - 1 ensures ms[1..][k].motor in MotorIds {
      assert ms[1..][k] == ms[k + 1];
    }
  }

  lemma ValidMovesExtend(ms: seq<Movement>, k: nat)
    requires k < |ms| && ValidMoves(ms[..k]) && ms[k].motor in MotorIds
    ensures ValidMoves(ms[..k + 1])
  {
    assert forall j :: 0 <= j < k ==> ms[..k + 1][j] == ms[..k][j];
  }

  lemma NamesCons(ms: seq<Movement>, id: int)
    requires ms != []
    ensures Names(ms, id) <==> ms[0].motor == id || Names(ms[1..], id)
  {
    if Names(ms[1..], id) {
      var k :| 0 <= k < |ms[1..]| && ms[1..][k].motor == id;
      assert ms[k + 1].motor == id;
    }
    if Names(ms, id) && ms[0].motor != id {
      var k :| 0 <= k < |ms| && ms[k].motor == id;
      assert ms[1..][k - 1].motor == id;
    }
  }

  /** A batch of one command to a known motor steps that motor alone. */
  lemma ApplyOne(m: map<int, MotorState>, c: Movement)
    requires ValidMotors(m) && c.motor in m
    ensures ApplyMoves(m, [c]) == m[c.motor := Stepped(m[c.motor], c.direction, c.steps)]
  {
    assert [c][1..] == [];
  }

  /** The batch from its k-th command on: that command, then the rest. */
  lemma ApplyMoveAt(m: map<int, MotorState>, ms: seq<Movement>, k: nat)
    requires ValidMotors(m) && k < |ms|
    ensures ApplyMoves(m, ms[k..]) ==
              if ms[k].motor in m then ApplyMoves(ApplyMoves(m, [ms[k]]), ms[k + 1..]) else m
  {
    assert ms[k..][0] == ms[k] && ms[k..][1..] == ms[k + 1..];
    assert [ms[k]][1..] == [];
  }

  /** A command to a known motor: its move, then the rest of the batch. */
  lemma MoveStepAt(m: map<int, MotorState>, ms: seq<Movement>, k: nat)
    requires ValidMotors(m) && k < |ms| && ms[k].motor in m
    ensures ApplyMoves(ApplyMoves(m, [Movement(ms[k].motor, ms[k].steps, ms[k].direction)]), ms[k + 1..]) == ApplyMoves(m, ms[k..])
  {
    ApplyMoveAt(m, ms, k);
  }

  /** A command to an unknown motor moves nothing and ends the batch. */
  lemma MoveStopsAt(m: map<int, MotorState>, ms: seq<Movement>, k: nat)
    requires ValidMotors(m) && k < |ms| && ms[k].motor !in m
    ensures ApplyMoves(m, [Movement(ms[k].motor, ms[k].steps, ms[k].direction)]) == m
    ensures ApplyMoves(m, ms[k..]) == m
  {
    ApplyMoveAt(m, ms, k);
  }

  /**
   * A batch of valid commands moves each motor's counter by the net pulses
   * it was given, whatever the interleaving, and leaves its table alone.
   */
  lemma {:induction false} ApplyMovesNet(m: map<int, MotorState>, ms: seq<Movement>)
    requires ValidMotors(m) && ValidMoves(ms)
    ensures forall id :: id in m ==>
              && ApplyMoves(m, ms)[id].position == m[id].position + NetSteps(ms, id)
              && ApplyMoves(m, ms)[id].stepSequence == m[id].stepSequence
    decreases |ms|
  {
    if ms != [] {
      var c := ms[0];
      SteppedClosedForm(m[c.motor], c.direction, c.steps);
      ValidMovesTail(ms);
      ApplyMovesNet(m[c.motor := Stepped(m[c.motor], c.direction, c.steps)], ms[1..]);
    }
  }

  /** A batch leaves a motor it never names exactly as it was. */
  lemma {:induction false} ApplyMovesOthersUntouched(m: map<int, MotorState>, ms: seq<Movement>, id: int)
    requires ValidMotors(m) && id in m && !Names(ms, id)
    ensures ApplyMoves(m, ms)[id] == m[id]
    decreases |ms|
  {
    if ms != [] && ms[0].motor in m {
      var c := ms[0];
      NamesCons(ms, id);
      ApplyMovesOthersUntouched(m[c.motor := Stepped(m[c.motor], c.direction, c.steps)], ms[1..], id);
    }
  }

  /** A command naming an unknown motor cuts the batch off there. */
  lemma {:induction false} ApplyMovesStopsAtInvalid(m: map<int, MotorState>, ms: seq<Movement>)
    requires ValidMotors(m) && FirstInvalid(ms).Some?
    ensures ApplyMoves(m, ms) == ApplyMoves(m, ms[..FirstInvalid(ms).value])
    decreases |ms|
  {
    var i := FirstInvalid(ms).value;
    if i > 0 {
      var c := ms[0];
      assert ms[..i][0] == c && c.motor in m;
      var m' := m[c.motor := Stepped(m[c.motor], c.direction, c.steps)];
      assert FirstInvalid(ms[1..]) == Some(i - 1);
      assert ms[..i][1..] == ms[1..][..i - 1];
      ApplyMovesStopsAtInvalid(m', ms[1..]);
      assert ApplyMoves(m, ms[..i]) == ApplyMoves(m', ms[1..][..i - 1]);
    }
  }

  /** Two batches of valid commands run one after the other act as their concatenation. */
  lemma {:induction false} ApplyMovesAppend(m: map<int, MotorState>, a: seq<Movement>, b: seq<Movement>)
    requires ValidMotors(m) && ValidMoves(a)
    ensures ApplyMoves(m, a + b) == ApplyMoves(ApplyMoves(m, a), b)
    decreases |a|
  {
    if a == [] {
      assert a + b == b;
    } else {
      var c := a[0];
      assert (a + b)[0] == c && (a + b)[1..] == a[1..] + b;
      ValidMovesTail(a);
      ApplyMovesAppend(m[c.motor := Stepped(m[c.motor], c.direction, c.steps)], a[1..], b);
    }
  }

  /** A batch whose first k commands are valid and whose k-th is not fails at k. */
  lemma {:induction false} FirstInvalidAt(ms: seq<Movement>, k: nat)
    requires k < |ms| && ValidMoves(ms[..k]) && ms[k].motor !in MotorIds
    ensures FirstInvalid(ms) == Some(k)
    decreases k
  {
    if k > 0 {
      ValidMovesTail(ms[..k]);
      assert ms[1..][..k - 1] == ms[..k][1..];
      FirstInvalidAt(ms[1..], k - 1);
    }
  }

  /**
   * The motors after a homing routine: each command moves its motor and
   * then zeroes that motor's counter; an unknown motor raises and ends it.
   */
  function HomeMoves(m: map<int, MotorState>, hs: seq<Movement>): (r: map<int, MotorState>)
    requires ValidMotors(m)
    ensures ValidMotors(r)
    decreases |hs|
  {
    if hs == [] || hs[0].motor !in m then m
    else
      var c := hs[0];
      HomeMoves(m[c.motor := Stepped(m[c.motor], c.direction, c.steps).(position := 0)], hs[1..])
  }

  lemma HomeMoveAt(m: map<int, MotorState>, hs: seq<Movement>, k: nat)
    requires ValidMotors(m) && k < |hs|
    ensures HomeMoves(m, hs[k..]) ==
              if hs[k].motor in m then HomeMoves(HomeMoves(m, [hs[k]]), hs[k + 1..]) else m
  {
    assert hs[k..][0] == hs[k] && hs[k..][1..] == hs[k + 1..];
    assert [hs[k]][1..] == [];
  }

  /** One homing command: the move of a batch of one, then the counter zeroed. */
  lemma HomeOne(m: map<int, MotorState>, c: Movement)
    requires ValidMotors(m) && c.motor in m
    ensures HomeMoves(m, [c]) ==
              ApplyMoves(m, [c])[c.motor := ApplyMoves(m, [c])[c.motor].(position := 0)]
  {
    assert [c][1..] == [];
    ApplyOne(m, c);
  }

  /** A homing command to a known motor: its move, its counter zeroed, then the rest of the routine. */
  lemma HomeStepAt(m: map<int, MotorState>, hs: seq<Movement>, k: nat)
    requires ValidMotors(m) && k < |hs| && hs[k].motor in m
    ensures var moved := ApplyMoves(m, [Movement(hs[k].motor, hs[k].steps, hs[k].direction)]);
            HomeMoves(moved[hs[k].motor := moved[hs[k].motor].(position := 0)], hs[k + 1..]) == HomeMoves(m, hs[k..])
  {
    HomeMoveAt(m, hs, k);
    HomeOne(m, hs[k]);
  }

  /** A homing command to an unknown motor moves nothing and ends the routine. */
  lemma HomeStopsAt(m: map<int, MotorState>, hs: seq<Movement>, k: nat)
    requires ValidMotors(m) && k < |hs| && hs[k].motor !in m
    ensures ApplyMoves(m, [Movement(hs[k].motor, hs[k].steps, hs[k].direction)]) == m
    ensures HomeMoves(m, hs[k..]) == m
  {
    HomeMoveAt(m, hs, k);
  }

  /**
   * A homing routine of valid commands leaves every motor it names at 0 and
   * every other motor exactly as it was.
   */
  lemma {:induction false} HomeMovesZeroesNamed(m: map<int, MotorState>, hs: seq<Movement>)
    requires ValidMotors(m) && ValidMoves(hs)
    ensures forall id :: id in m && Names(hs, id) ==> HomeMoves(m, hs)[id].position == 0
    ensures forall id :: id in m && !Names(hs, id) ==> HomeMoves(m, hs)[id] == m[id]
    decreases |hs|
  {
    if hs != [] {
      var c := hs[0];
      ValidMovesTail(hs);
      var m' := m[c.motor := Stepped(m[c.motor], c.direction, c.steps).(position := 0)];
      HomeMovesZeroesNamed(m', hs[1..]);
      forall id | id in m
        ensures Names(hs, id) ==> HomeMoves(m, hs)[id].position == 0
        ensures !Names(hs, id) ==> HomeMoves(m, hs)[id] == m[id]
      {
        NamesCons(hs, id);
        if id == c.motor && !Names(hs[1..], id) {
          assert HomeMoves(m', hs[1..])[id] == m'[id];
        }
      }
    }
  }

  /** The motors with every counter below identifier `bound` reset to 0. */
  function ResetBelow(m: map<int, MotorState>, bound: int): (r: map<int, MotorState>)
    ensures r.Keys == m.Keys
    ensures forall i :: i in m ==> r[i] == if i < bound then m[i].(position := 0) else m[i]
  {
    map i | i in m :: if i < bound then m[i].(position := 0) else m[i]
  }

  lemma ResetBelowStep(m: map<int, MotorState>, id: int)
    requires id in m
    ensures ResetBelow(m, id + 1) == ResetBelow(m, id)[id := m[id].(position := 0)]
  {
  }

  /** The motors with every motor below identifier `bound` released. */
  function StopBelow(m: map<int, MotorState>, bound: int): (r: map<int, MotorState>)
    ensures r.Keys == m.Keys
    ensures forall i :: i in m ==> r[i] == if i < bound then m[i].(coils := Released) else m[i]
  {
    map i | i in m :: if i < bound then m[i].(coils := Released) else m[i]
  }

  lemma StopBelowStep(m: map<int, MotorState>, id: int)
    requires id in m
    ensures StopBelow(m, id + 1) == StopBelow(m, id)[id := m[id].(coils := Released)]
  {
  }

  /** The states of the four motors when exactly one of them has changed. */
  lemma FourWithOneChanged(before: map<int, MotorState>, id: int, s: MotorState, s1: MotorState, s2: MotorState, s3: MotorState, s4: MotorState)
    requires before.Keys == MotorIds && id in MotorIds
    requires s1 == (if id == 1 then s else before[1]) && s2 == (if id == 2 then s else before[2])
    requires s3 == (if id == 3 then s else before[3]) && s4 == (if id == 4 then s else before[4])
    ensures map[1 := s1, 2 := s2, 3 := s3, 4 := s4] == before[id := s]
  {
  }

  // ---------------------------------------------------------------------
  // The controller

  class StepperController {
    /** The motors by identifier, as built from MotorPins. */
    const motors: map<int, StepperMotor>
    ghost const Repr: set<StepperMotor>

    ghost predicate Valid()
      reads this, Repr
    {
      && motors.Keys == MotorIds
      && Repr == {motors[1], motors[2], motors[3], motors[4]}
      && motors[1] != motors[2] && motors[1] != motors[3] && motors[1] != motors[4]
      && motors[2] != motors[3] && motors[2] != motors[4] && motors[3] != motors[4]
      && motors[1].Valid() && motors[2].Valid() && motors[3].Valid() && motors[4].Valid()
    }

    /** The state of every motor by identifier. */
    function States(): (m: map<int, MotorState>)
      requires Valid()
      reads this, Repr
      ensures ValidMotors(m)
    {
      map[1 := motors[1].State(), 2 := motors[2].State(), 3 := motors[3].State(), 4 := motors[4].State()]
    }

    /** Four new motors at 0 with their pins, named Motor_1 .. Motor_4. */
    constructor ()
      ensures Valid()
      ensures fresh(Repr)
      ensures forall i :: i in MotorIds ==> motors[i].pins == MotorPins[i] && States()[i] == InitialState
      ensures motors[1].name == "Motor_1" && motors[2].name == "Motor_2"
      ensures motors[3].name == "Motor_3" && motors[4].name == "Motor_4"
    {
      var m1 := new StepperMotor(MotorPins[1], "Motor_1");
      var m2 := new StepperMotor(MotorPins[2], "Motor_2");
      var m3 := new StepperMotor(MotorPins[3], "Motor_3");
      var m4 := new StepperMotor(MotorPins[4], "Motor_4");
      motors := map[1 := m1, 2 := m2, 3 := m3, 4 := m4];
      Repr := {m1, m2, m3, m4};
    }

    /** get_motor: the motor with that identifier, or ValueError for any other number. */
    method GetMotor(id: int) returns (r: Result<StepperMotor, MotorError>)
      requires Valid()
      ensures r.Success? <==> id in MotorIds
      ensures r.Success? ==> r.value == motors[id] && r.value in Repr
      ensures r.Failure? ==> r.error == InvalidMotorId(id)
    {
      if id !in motors {
        return Failure(InvalidMotorId(id));
      }
      return Success(motors[id]);
    }

    /** move_motor: route one command; only the named motor changes. */
    method MoveMotor(id: int, steps: int, direction: Direction) returns (r: Result<(), MotorError>)
      requires Valid()
      modifies Repr
      ensures Valid()
      ensures r.Success? <==> id in MotorIds
      ensures r.Failure? ==> r.error == InvalidMotorId(id)
      ensures States() == ApplyMoves(old(States()), [Movement(id, steps, direction)])
    {
      var found := GetMotor(id);
      if found.Failure? {
        return Failure(found.error);
      }
      var motor := found.value;
      ghost var before := old(States());
      motor.Step(direction, steps);
      ghost var stepped := Stepped(before[id], direction, steps);
      assert motors[1].State() == if id == 1 then stepped else before[1];
      assert motors[2].State() == if id == 2 then stepped else before[2];
      assert motors[3].State() == if id == 3 then stepped else before[3];
      assert motors[4].State() == if id == 4 then stepped else before[4];
      FourWithOneChanged(before, id, stepped, motors[1].State(), motors[2].State(), motors[3].State(), motors[4].State());
      ApplyOne(before, Movement(id, steps, direction));
      return Success(());
    }

    /** get_motor(id).reset_position() for a known motor. */
    method ResetMotor(id: int)
      requires Valid() && id in MotorIds
      modifies Repr
      ensures Valid()
      ensures States() == old(States())[id := old(States())[id].(position := 0)]
    {
      ghost var before := old(States());
      var motor := motors[id];
      motor.ResetPosition();
      ghost var reset := before[id].(position := 0);
      assert motors[1].State() == if id == 1 then reset else before[1];
      assert motors[2].State() == if id == 2 then reset else before[2];
      assert motors[3].State() == if id == 3 then reset else before[3];
      assert motors[4].State() == if id == 4 then reset else before[4];
      FourWithOneChanged(before, id, reset, motors[1].State(), motors[2].State(), motors[3].State(), motors[4].State());
    }

    /** stop() on one known motor. */
    method StopMotor(id: int)
      requires Valid() && id in MotorIds
      modifies Repr
      ensures Valid()
      ensures States() == old(States())[id := old(States())[id].(coils := Released)]
    {
      ghost var before := old(States());
      var motor := motors[id];
      motor.Stop();
      ghost var stopped := before[id].(coils := Released);
      assert motors[1].State() == if id == 1 then stopped else before[1];
      assert motors[2].State() == if id == 2 then stopped else before[2];
      assert motors[3].State() == if id == 3 then stopped else before[3];
      assert motors[4].State() == if id == 4 then stopped else before[4];
      FourWithOneChanged(before, id, stopped, motors[1].State(), motors[2].State(), motors[3].State(), motors[4].State());
    }

    /** move_multiple: the commands in list order, up to the first that raises. */
    method MoveMultiple(ms: seq<Movement>) returns (r: Result<(), MotorError>)
      requires Valid()
      modifies Repr
      ensures Valid()
      ensures r.Success? <==> ValidMoves(ms)
      ensures r.Failure? ==> r.error == InvalidMotorId(ms[FirstInvalid(ms).value].motor)
      ensures States() == ApplyMoves(old(States()), ms)
    {
      ghost var start := States();
      r := Success(());
      var k := 0;
      while k < |ms|
        invariant Valid()
        invariant 0 <= k <= |ms|
        invariant ValidMoves(ms[..k]) && r.Success?
        invariant ApplyMoves(States(), ms[k..]) == ApplyMoves(start, ms)
      {
        var c := ms[k];
        ghost var before := States();
        r := MoveMotor(c.motor, c.steps, c.direction);
        if r.Failure? {
          MoveStopsAt(before, ms, k);
          FirstInvalidAt(ms, k);
          return;
        }
        MoveStepAt(before, ms, k);
        ValidMovesExtend(ms, k);
        k := k + 1;
      }
      assert ms[..k] == ms;
    }

    /**
     * home_all: without a routine every counter reads 0 and nothing moves;
     * with one, each command moves its motor and then zeroes its counter.
     */
    method HomeAll(routine: Option<seq<Movement>>) returns (r: Result<(), MotorError>)
      requires Valid()
      modifies Repr
      ensures Valid()
      ensures routine.None? ==> r.Success? && States() == ResetBelow(old(States()), 5)
      ensures routine.Some? ==> (r.Success? <==> ValidMoves(routine.value))
      ensures routine.Some? && r.Failure? ==> r.error == InvalidMotorId(routine.value[FirstInvalid(routine.value).value].motor)
      ensures routine.Some? ==> States() == HomeMoves(old(States()), routine.value)
    {
      if routine.None? {
        ResetAll();
        return Success(());
      }
      r := RunHoming(routine.value);
    }

    /** home_all without a routine: every counter, in identifier order, reads 0. */
    method ResetAll()
      requires Valid()
      modifies Repr
      ensures Valid()
      ensures States() == ResetBelow(old(States()), 5)
    {
      ghost var start := States();
      var id := 1;
      while id <= 4
        invariant 1 <= id <= 5
        invariant Valid()
        invariant States() == ResetBelow(start, id)
      {
        ResetMotor(id);
        ResetBelowStep(start, id);
        id := id + 1;
      }
    }

    /** home_all with a routine. */
    method RunHoming(hs: seq<Movement>) returns (r: Result<(), MotorError>)
      requires Valid()
      modifies Repr
      ensures Valid()
      ensures r.Success? <==> ValidMoves(hs)
      ensures r.Failure? ==> r.error == InvalidMotorId(hs[FirstInvalid(hs).value].motor)
      ensures States() == HomeMoves(old(States()), hs)
    {
      ghost var start := States();
      r := Success(());
      var k := 0;
      while k < |hs|
        invariant Valid()
        invariant 0 <= k <= |hs|
        invariant ValidMoves(hs[..k]) && r.Success?
        invariant HomeMoves(States(), hs[k..]) == HomeMoves(start, hs)
      {
        var c := hs[k];
        ghost var before := States();
        r := MoveMotor(c.motor, c.steps, c.direction);
        if r.Failure? {
          HomeStopsAt(before, hs, k);
          FirstInvalidAt(hs, k);
          return;
        }
        ResetMotor(c.motor);
        HomeStepAt(before, hs, k);
        ValidMovesExtend(hs, k);
        k := k + 1;
      }
      assert hs[..k] == hs;
    }

    /** stop_all: every motor released; no counter or table position changes. */
    method StopAll()
      requires Valid()
      modifies Repr
      ensures Valid()
      ensures States() == StopBelow(old(States()), 5)
    {
      ghost var start := States();
      var id := 1;
      while id <= 4
        invariant 1 <= id <= 5
        invariant Valid()
        invariant States() == StopBelow(start, id)
      {
        StopMotor(id);
        StopBelowStep(start, id);
        id := id + 1;
      }
    }

    /** get_all_positions: every motor's counter by identifier. */
    method GetAllPositions() returns (p: map<int, int>)
      requires Valid()
      ensures p == PositionsOf(States())
    {
      p := map[1 := motors[1].position, 2 := motors[2].position, 3 := motors[3].position, 4 := motors[4].position];
    }
  }
}
