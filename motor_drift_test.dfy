/**
 * The X-axis drift test: home against the minimum limit switch, then run
 * forward to the maximum switch and back to the minimum switch a number of
 * times, recording for each completed cycle how far the two step counts
 * disagree.
 *
 * The switches are an oracle. `sense(move, k)` says whether the switch that
 * move number `move` is heading for reads triggered after `k` pulses of that
 * move. Move 0 is the initial homing; cycle c runs move 2c - 1 forward and
 * move 2c backward.
 */
module MotorDriftTest {
  import opened Wrappers

  /** The motor's resolution along the axis. */
  const StepsPerMm: int := 200
  /** The most pulses a single move may give before it is abandoned. */
  const MaxStepsSafety: nat := 50000

  /** What move_motor_until_limit returns, without the elapsed time. */
  datatype LimitMove = LimitMove(steps: nat, reached: bool)

  /**
   * The outcome of pulsing from `k` pulses on: stop at the first count at
   * which the switch reads triggered, or give up once the count has reached
   * the safety ceiling with the switch still open.
   */
  function SeekFrom(switch: nat -> bool, k: nat): LimitMove
    requires k <= MaxStepsSafety
    decreases MaxStepsSafety - k
  {
    if switch(k) then LimitMove(k, true)
    else if k >= MaxStepsSafety then LimitMove(k, false)
    else SeekFrom(switch, k + 1)
  }

  /** move_motor_until_limit as a value, from no pulses. */
  function SeekLimit(switch: nat -> bool): LimitMove {
    SeekFrom(switch, 0)
  }

  lemma {:induction false} SeekFromFacts(switch: nat -> bool, k: nat)
    requires k <= MaxStepsSafety
    requires forall j: nat :: j < k ==> !switch(j)
    ensures var m := SeekFrom(switch, k);
            && k <= m.steps <= MaxStepsSafety
            && (forall j: nat :: j < m.steps ==> !switch(j))
            && (m.reached <==> switch(m.steps))
            && (!m.reached ==> m.steps == MaxStepsSafety)
    decreases MaxStepsSafety - k
  {
    if !switch(k) && k < MaxStepsSafety {
      SeekFromFacts(switch, k + 1);
    }
  }

  /**
   * A seek never gives more than MaxStepsSafety pulses. It reports the limit
   * reached exactly when the switch closed within that many pulses, and then
   * after exactly the pulses it took to close; otherwise it stopped at the
   * ceiling with the switch open all the way.
   */
  lemma SeekLimitCorrect(switch: nat -> bool)
    ensures var m := SeekLimit(switch);
            && m.steps <= MaxStepsSafety
            && (m.reached <==> exists j: nat :: j <= MaxStepsSafety && switch(j))
            && (m.reached ==> switch(m.steps) && forall j: nat :: j < m.steps ==> !switch(j))
            && (!m.reached ==> m.steps == MaxStepsSafety && forall j: nat :: j <= MaxStepsSafety ==> !switch(j))
  {
    SeekFromFacts(switch, 0);
  }

  /** A switch that already reads triggered stops the move before any pulse. */
  lemma SeekAlreadyAtLimit(switch: nat -> bool)
    requires switch(0)
    ensures SeekLimit(switch) == LimitMove(0, true)
  {
  }

  /** One completed cycle as the test records it (timings left out). */
  datatype CycleRecord = CycleRecord(
    cycleNumber: int,
    forwardSteps: nat,
    backwardSteps: nat,
    stepDifference: nat,
    driftMm: real)

  /** The drift of one cycle: the step counts' disagreement, and that distance in millimetres. */
  function DriftRecord(cycle: int, forward: nat, backward: nat): (r: CycleRecord)
    ensures r.cycleNumber == cycle && r.forwardSteps == forward && r.backwardSteps == backward
    ensures r.stepDifference as int == forward - backward || r.stepDifference as int == backward - forward
    ensures r.driftMm * StepsPerMm as real == r.stepDifference as real
  {
    var difference: nat := if forward >= backward then forward - backward else backward - forward;
    CycleRecord(cycle, forward, backward, difference, difference as real / StepsPerMm as real)
  }

  /** The drift does not depend on which way the larger count went, and is never negative. */
  lemma DriftSymmetric(cycle: int, forward: nat, backward: nat)
    ensures DriftRecord(cycle, forward, backward).stepDifference == DriftRecord(cycle, backward, forward).stepDifference
    ensures DriftRecord(cycle, forward, backward).driftMm == DriftRecord(cycle, backward, forward).driftMm
    ensures DriftRecord(cycle, forward, backward).driftMm >= 0.0
    ensures DriftRecord(cycle, forward, backward).driftMm == 0.0 <==> forward == backward
  {
  }

  lemma DriftExample()
    ensures DriftRecord(1, 5012, 4988).stepDifference == 24
    ensures DriftRecord(1, 5012, 4988).driftMm == 0.12
  {
  }

  /** The switch as seen by one move. */
  function MoveSwitch(sense: (nat, nat) -> bool, move: nat): nat -> bool {
    (k: nat) => sense(move, k)
  }

  /**
   * One cycle: forward to the maximum switch, then back to the minimum
   * switch. It is recorded only when both moves reach their switches.
   */
  function RunCycle(sense: (nat, nat) -> bool, cycle: nat): (r: Option<CycleRecord>)
    requires cycle >= 1
    ensures r.Some? ==> r.value.cycleNumber == cycle
  {
    var forward := SeekLimit(MoveSwitch(sense, 2 * cycle - 1));
    if !forward.reached then None
    else
      var backward := SeekLimit(MoveSwitch(sense, 2 * cycle));
      if !backward.reached then None
      else Some(DriftRecord(cycle, forward.steps, backward.steps))
  }

  /**
   * The records of cycles `cycle` .. `numCycles`: each cycle that reaches
   * both limits is recorded; the first cycle that misses either ends the
   * run unrecorded.
   */
  function CyclesFrom(sense: (nat, nat) -> bool, numCycles: int, cycle: nat): seq<CycleRecord>
    requires cycle >= 1
    decreases if numCycles >= cycle then numCycles - cycle + 1 else 0
  {
    if cycle > numCycles then []
    else
      match RunCycle(sense, cycle)
      case None => []
      case Some(r) => [r] + CyclesFrom(sense, numCycles, cycle + 1)
  }

  /** One step of the run of cycles: the cycle's record, if any, ahead of the rest. */
  lemma CyclesFromUnfold(sense: (nat, nat) -> bool, numCycles: int, cycle: nat)
    requires 1 <= cycle <= numCycles
    ensures RunCycle(sense, cycle).None? ==> CyclesFrom(sense, numCycles, cycle) == []
    ensures RunCycle(sense, cycle).Some? ==>
              CyclesFrom(sense, numCycles, cycle) == [RunCycle(sense, cycle).value] + CyclesFrom(sense, numCycles, cycle + 1)
  {
  }

  /**
   * The recorded cycles are those run from `cycle` on, consecutively and in
   * order, at most as many as requested; a run that stops short stops at a
   * cycle that failed.
   */
  lemma {:induction false} CyclesFromShape(sense: (nat, nat) -> bool, numCycles: int, cycle: nat)
    requires cycle >= 1
    ensures var rs := CyclesFrom(sense, numCycles, cycle);
            && |rs| <= (if numCycles >= cycle then numCycles - cycle + 1 else 0)
            && (forall i :: 0 <= i < |rs| ==> RunCycle(sense, cycle + i) == Some(rs[i]))
            && (cycle + |rs| <= numCycles ==> RunCycle(sense, cycle + |rs|).None?)
    decreases if numCycles >= cycle then numCycles - cycle + 1 else 0
  {
    var rs := CyclesFrom(sense, numCycles, cycle);
    if cycle <= numCycles {
      CyclesFromUnfold(sense, numCycles, cycle);
      var first := RunCycle(sense, cycle);
      if first.Some? {
        CyclesFromShape(sense, numCycles, cycle + 1);
        var rest := CyclesFrom(sense, numCycles, cycle + 1);
        assert rs == [first.value] + rest;
        forall i | 0 <= i < |rs|
          ensures RunCycle(sense, cycle + i) == Some(rs[i])
        {
          if i == 0 {
            assert rs[0] == first.value;
          } else {
            var j := i - 1;
            assert rs[i] == rest[j];
            assert RunCycle(sense, cycle + 1 + j) == Some(rest[j]);
          }
        }
        assert cycle + |rs| == cycle + 1 + |rest|;
      }
    }
  }

  /** The recorded cycles are numbered 1, 2, ... in order. */
  lemma CyclesNumbered(sense: (nat, nat) -> bool, numCycles: int)
    ensures var rs := CyclesFrom(sense, numCycles, 1);
            && |rs| <= (if numCycles >= 1 then numCycles else 0)
            && forall i :: 0 <= i < |rs| ==> rs[i].cycleNumber == i + 1
  {
    CyclesFromShape(sense, numCycles, 1);
  }

  /** print_summary's figures. */
  datatype DriftStats = DriftStats(
    completed: nat,
    averageForward: real,
    averageBackward: real,
    averageDrift: real,
    maxDrift: real,
    minDrift: real)

  function SumForward(rs: seq<CycleRecord>): real {
    if rs == [] then 0.0 else SumForward(rs[..|rs| - 1]) + rs[|rs| - 1].forwardSteps as real
  }

  function SumBackward(rs: seq<CycleRecord>): real {
    if rs == [] then 0.0 else SumBackward(rs[..|rs| - 1]) + rs[|rs| - 1].backwardSteps as real
  }

  function SumDrift(rs: seq<CycleRecord>): real {
    if rs == [] then 0.0 else SumDrift(rs[..|rs| - 1]) + rs[|rs| - 1].driftMm
  }

  /** max() over the drifts. */
  function MaxDrift(rs: seq<CycleRecord>): (m: real)
    requires rs != []
    ensures forall i :: 0 <= i < |rs| ==> rs[i].driftMm <= m
    ensures exists i :: 0 <= i < |rs| && rs[i].driftMm == m
  {
    if |rs| == 1 then rs[0].driftMm
    else
      var rest := MaxDrift(rs[1..]);
      assert forall i :: 1 <= i < |rs| ==> rs[i] == rs[1..][i - 1];
      if rs[0].driftMm >= rest then rs[0].driftMm else rest
  }

  /** min() over the drifts. */
  function MinDrift(rs: seq<CycleRecord>): (m: real)
    requires rs != []
    ensures forall i :: 0 <= i < |rs| ==> m <= rs[i].driftMm
    ensures exists i :: 0 <= i < |rs| && rs[i].driftMm == m
  {
    if |rs| == 1 then rs[0].driftMm
    else
      var rest := MinDrift(rs[1..]);
      assert forall i :: 1 <= i < |rs| ==> rs[i] == rs[1..][i - 1];
      if rs[0].driftMm <= rest then rs[0].driftMm else rest
  }

  /** The summary statistics of the recorded cycles, or None when there are none. */
  function Summarize(rs: seq<CycleRecord>): (s: Option<DriftStats>)
    ensures s.None? <==> rs == []
    ensures s.Some? ==> s.value.completed == |rs|
  {
    if rs == [] then None
    else
      var n := |rs| as real;
      Some(DriftStats(|rs|, SumForward(rs) / n, SumBackward(rs) / n, SumDrift(rs) / n, MaxDrift(rs), MinDrift(rs)))
  }

  lemma {:induction false} SumDriftBounds(rs: seq<CycleRecord>, lo: real, hi: real)
    requires forall i :: 0 <= i < |rs| ==> lo <= rs[i].driftMm <= hi
    ensures |rs| as real * lo <= SumDrift(rs) <= |rs| as real * hi
  {
    if rs != [] {
      var init := rs[..|rs| - 1];
      assert forall i :: 0 <= i < |init| ==> init[i] == rs[i];
      SumDriftBounds(init, lo, hi);
      assert |rs| as real * lo == |init| as real * lo + lo;
      assert |rs| as real * hi == |init| as real * hi + hi;
    }
  }

  lemma AverageBetween(sum: real, count: nat, lo: real, hi: real)
    requires count > 0 && count as real * lo <= sum <= count as real * hi
    ensures lo <= sum / count as real <= hi
  {
  }

  /** Drifts that all lie within bounds have a mean within them. */
  lemma MeanWithin(rs: seq<CycleRecord>, lo: real, hi: real)
    requires rs != []
    requires forall i :: 0 <= i < |rs| ==> lo <= rs[i].driftMm <= hi
    ensures lo <= SumDrift(rs) / |rs| as real <= hi
  {
    SumDriftBounds(rs, lo, hi);
    AverageBetween(SumDrift(rs), |rs|, lo, hi);
  }

  /** The average drift lies between the smallest and the largest (over exact reals; float rounding can break it). */
  lemma SummaryOrdered(rs: seq<CycleRecord>)
    requires rs != []
    ensures var s := Summarize(rs).value;
            s.minDrift <= s.averageDrift <= s.maxDrift
  {
    MeanWithin(rs, MinDrift(rs), MaxDrift(rs));
  }

  class MotorDriftTester {
    /** test_data["cycles"]: the records of the completed cycles, in order. */
    var cycles: seq<CycleRecord>

    constructor ()
      ensures cycles == []
    {
      cycles := [];
    }

    /** move_motor_until_limit: pulse until the switch closes or the safety ceiling is reached. */
    method MoveMotorUntilLimit(switch: nat -> bool) returns (steps: nat, reached: bool)
      ensures LimitMove(steps, reached) == SeekLimit(switch)
    {
      steps := 0;
      while !switch(steps)
        invariant steps <= MaxStepsSafety
        invariant SeekFrom(switch, steps) == SeekLimit(switch)
        decreases MaxStepsSafety - steps
      {
        if steps >= MaxStepsSafety {
          return steps, false;
        }
        steps := steps + 1;
      }
      return steps, true;
    }

    /**
     * run_drift_test: false, with nothing recorded, when homing misses the
     * minimum switch; otherwise the completed cycles are appended in order.
     */
    method RunDriftTest(numCycles: int, sense: (nat, nat) -> bool) returns (ok: bool)
      modifies this
      ensures ok == SeekLimit(MoveSwitch(sense, 0)).reached
      ensures !ok ==> cycles == old(cycles)
      ensures ok ==> cycles == old(cycles) + CyclesFrom(sense, numCycles, 1)
    {
      var _, homed := MoveMotorUntilLimit(MoveSwitch(sense, 0));
      if !homed {
        return false;
      }
      var cycle := 1;
      while cycle <= numCycles
        invariant cycle >= 1
        invariant cycles + CyclesFrom(sense, numCycles, cycle) == old(cycles) + CyclesFrom(sense, numCycles, 1)
        decreases numCycles - cycle
      {
        CyclesFromUnfold(sense, numCycles, cycle);
        var forwardSteps, forwardReached := MoveMotorUntilLimit(MoveSwitch(sense, 2 * cycle - 1));
        if !forwardReached {
          assert cycles + CyclesFrom(sense, numCycles, cycle) == cycles;
          return true;
        }
        var backwardSteps, backwardReached := MoveMotorUntilLimit(MoveSwitch(sense, 2 * cycle));
        if !backwardReached {
          assert cycles + CyclesFrom(sense, numCycles, cycle) == cycles;
          return true;
        }
        var record := DriftRecord(cycle, forwardSteps, backwardSteps);
        assert CyclesFrom(sense, numCycles, cycle) == [record] + CyclesFrom(sense, numCycles, cycle + 1);
        assert cycles + CyclesFrom(sense, numCycles, cycle) == (cycles + [record]) + CyclesFrom(sense, numCycles, cycle + 1);
        cycles := cycles + [record];
        cycle := cycle + 1;
      }
      assert CyclesFrom(sense, numCycles, cycle) == [];
      return true;
    }
  }
}
