/**
 * What the pipetting workflows promise: the order and net effect of the
 * commands of one move, the bounded log, the plunger returning to where it
 * started over a transfer, how many transfers and waits a run of cycles and
 * repetitions makes, and the double Z raise of home.
 */
module PipettingProperties {
  import opened Wrappers
  import opened CoordinateMapper
  import opened StepperControl
  import opened PipettingSpec

  // ---------------------------------------------------------------------
  // The log buffer

  /** The last n of the last n of s, followed by t, are the last n of s + t. */
  lemma LastNOfLastN<T>(s: seq<T>, t: seq<T>, n: nat)
    ensures LastN(LastN(s, n) + t, n) == LastN(s + t, n)
  {
    var k := Min(n, |s|);
    var s' := s[|s| - k..];
    assert s' + t == (s + t)[|s| - k..];
  }

  /**
   * A controller fresh from __init__ holds exactly its two start-up lines,
   * oldest first, has issued nothing, and has no stop requested.
   */
  lemma StartupLog(saved: Coords, count: int)
    ensures var r := Logged(Logged(Rig(saved, false, count, Idle, None, [], [], 0, 0),
                                   Initialized(CoordinatesToWell(saved))),
                            PipetteConfiguration(count));
            && r.logs == [Initialized(CoordinatesToWell(saved)), PipetteConfiguration(count)]
            && r.trace == [] && !r.stopRequested && r.position == saved && r.pipetteCount == count
  {
    var e := Initialized(CoordinatesToWell(saved));
    assert Pushed([], e) == [e];
    assert Pushed([e], PipetteConfiguration(count)) == [e, PipetteConfiguration(count)];
  }

  lemma AppendFirst<T>(s: seq<T>, t: seq<T>)
    requires t != []
    ensures (s + [t[0]]) + t[1..] == s + t
  {
    assert t == [t[0]] + t[1..];
  }

  /**
   * However many entries are logged, the buffer holds the last MaxLogs of
   * everything logged, oldest first.
   */
  lemma {:induction false} LogKeepsLastEntries(buf: seq<LogEntry>, es: seq<LogEntry>)
    requires |buf| <= MaxLogs
    ensures |PushedAll(buf, es)| <= MaxLogs
    ensures PushedAll(buf, es) == LastN(buf + es, MaxLogs)
    decreases |es|
  {
    if es == [] {
      assert buf + es == buf;
    } else {
      var e, rest := es[0], es[1..];
      var b := Pushed(buf, e);
      assert PushedAll(buf, es) == PushedAll(b, rest);
      assert b == LastN(buf + [e], MaxLogs);
      LogKeepsLastEntries(b, rest);
      LastNOfLastN(buf + [e], rest, MaxLogs);
      AppendFirst(buf, es);
    }
  }

  /** Once full, the buffer stays full: each entry logged pushes out the oldest. */
  lemma LogDropsOldest(buf: seq<LogEntry>, e: LogEntry)
    requires |buf| == MaxLogs
    ensures Pushed(buf, e) == buf[1..] + [e]
  {
  }

  // ---------------------------------------------------------------------
  // Counting a trace

  lemma {:induction false} NetStepsAppend(a: seq<Movement>, b: seq<Movement>, id: int)
    ensures NetSteps(a + b, id) == NetSteps(a, id) + NetSteps(b, id)
    decreases |a|
  {
    if a == [] {
      assert a + b == b;
    } else {
      assert (a + b)[0] == a[0] && (a + b)[1..] == a[1..] + b;
      NetStepsAppend(a[1..], b, id);
    }
  }

  lemma {:induction false} CommandsAppend(a: seq<Event>, b: seq<Event>)
    ensures Commands(a + b) == Commands(a) + Commands(b)
    decreases |a|
  {
    if a == [] {
      assert a + b == b;
    } else {
      assert (a + b)[0] == a[0] && (a + b)[1..] == a[1..] + b;
      CommandsAppend(a[1..], b);
    }
  }

  lemma CommandsOfIssued(cs: seq<Movement>)
    ensures Commands(Issued(cs)) == cs
    decreases |cs|
  {
    if cs != [] {
      assert Issued(cs)[1..] == Issued(cs[1..]);
      CommandsOfIssued(cs[1..]);
    }
  }

  /** The net pulses the plunger (motor 4) is given over a stretch of trace. */
  function PlungerNet(t: seq<Event>): int {
    NetSteps(Commands(t), 4)
  }

  /** The number of aspirating strokes: clockwise commands to the plunger. */
  function Strokes(t: seq<Event>): nat
    decreases |t|
  {
    if t == [] then 0
    else (if t[0].Motor? && t[0].command.motor == 4 && t[0].command.direction == Clockwise then 1 else 0)
         + Strokes(t[1..])
  }

  /** The number of pauses of the given length. */
  function Pauses(t: seq<Event>, seconds: real): nat
    decreases |t|
  {
    if t == [] then 0
    else (if t[0] == Sleep(seconds) then 1 else 0) + Pauses(t[1..], seconds)
  }

  lemma {:induction false} CountsAppend(a: seq<Event>, b: seq<Event>, s: real)
    ensures Strokes(a + b) == Strokes(a) + Strokes(b)
    ensures Pauses(a + b, s) == Pauses(a, s) + Pauses(b, s)
    ensures PlungerNet(a + b) == PlungerNet(a) + PlungerNet(b)
    decreases |a|
  {
    CommandsAppend(a, b);
    NetStepsAppend(Commands(a), Commands(b), 4);
    if a == [] {
      assert a + b == b;
    } else {
      assert (a + b)[0] == a[0] && (a + b)[1..] == a[1..] + b;
      CountsAppend(a[1..], b, s);
    }
  }

  /** Commands to the axis motors neither stroke the plunger nor pause. */
  lemma {:induction false} AxisCommandsQuiet(cs: seq<Movement>, s: real)
    requires forall i :: 0 <= i < |cs| ==> cs[i].motor != 4
    ensures Strokes(Issued(cs)) == 0 && Pauses(Issued(cs), s) == 0 && PlungerNet(Issued(cs)) == 0
    decreases |cs|
  {
    if cs != [] {
      assert Issued(cs)[1..] == Issued(cs[1..]);
      AxisCommandsQuiet(cs[1..], s);
      assert Commands(Issued(cs)) == [cs[0]] + Commands(Issued(cs[1..]));
    }
  }

  // ---------------------------------------------------------------------
  // One move

  lemma SafeStepsValue()
    ensures SafeSteps == 2000
  {
    assert SafeHeight * StepsPerMmZ as real == 2000.0;
  }

  /** The net pulses of a single command. */
  lemma OneCommandNet(c: Movement, id: int)
    ensures NetSteps([c], id) == if c.motor == id then SignedSteps(c.direction, c.steps) else 0
  {
    assert [c][1..] == [];
  }

  /**
   * The commands of a move: all to the axis motors 1-3, none of zero
   * length, X before Y, and a descending move opens with the safe raise
   * and ends with the lowering through it. A zero delta names no motor.
   */
  lemma MoveCommandsOrder(dx: int, dy: int, dz: int)
    ensures var cs := MoveCommands(dx, dy, dz);
            && (forall i :: 0 <= i < |cs| ==> cs[i].motor in {1, 2, 3} && cs[i].steps > 0)
            && (forall i, j :: 0 <= i < |cs| && 0 <= j < |cs| && cs[i].motor == 1 && cs[j].motor == 2 ==> i < j)
            && (dz < 0 ==> cs[0] == Movement(3, SafeSteps, Clockwise)
                           && cs[|cs| - 1] == Movement(3, -dz + SafeSteps, Counterclockwise))
            && (dx == 0 <==> !Names(cs, 1)) && (dy == 0 <==> !Names(cs, 2)) && (dz == 0 <==> !Names(cs, 3))
  {
    SafeStepsValue();
    var zUp, xs, ys, zs := SafeRaise(dz), AxisMove(1, dx), AxisMove(2, dy), ZMove(dz);
    var cs := MoveCommands(dx, dy, dz);
    assert cs == zUp + xs + ys + zs;
    var x, y := |zUp|, |zUp| + |xs|;
    forall i | 0 <= i < |cs|
      ensures cs[i].motor in {1, 2, 3} && cs[i].steps > 0
      ensures cs[i].motor == 1 ==> i == x
      ensures cs[i].motor == 2 ==> i == y
      ensures cs[i].motor == 3 ==> dz != 0
    {
      if i < x {
        assert cs[i] == zUp[i];
      } else if i < y {
        assert cs[i] == xs[i - x];
      } else if i < y + |ys| {
        assert cs[i] == ys[i - y];
      } else {
        assert cs[i] == zs[i - y - |ys|];
      }
    }
    if dx != 0 {
      assert cs[x] == xs[0];
    }
    if dy != 0 {
      assert cs[y] == ys[0];
    }
    if dz != 0 {
      assert cs[|cs| - 1] == zs[0];
    }
  }

  /** The net pulses of a move are the deltas, axis by axis, and none reach the plunger. */
  lemma MoveCommandsNet(dx: int, dy: int, dz: int)
    ensures var cs := MoveCommands(dx, dy, dz);
            && NetSteps(cs, 1) == dx && NetSteps(cs, 2) == dy
            && NetSteps(cs, 3) == dz && NetSteps(cs, 4) == 0
  {
    SafeStepsValue();
    var zUp, xs, ys, zs := SafeRaise(dz), AxisMove(1, dx), AxisMove(2, dy), ZMove(dz);
    assert MoveCommands(dx, dy, dz) == zUp + xs + ys + zs;
    forall id | id in {1, 2, 3, 4}
      ensures NetSteps(zUp + xs + ys + zs, id) == NetSteps(zUp, id) + NetSteps(xs, id) + NetSteps(ys, id) + NetSteps(zs, id)
    {
      NetStepsAppend(zUp + xs + ys, zs, id);
      NetStepsAppend(zUp + xs, ys, id);
      NetStepsAppend(zUp, xs, id);
    }
    forall id | id in {1, 2, 3, 4}
      ensures NetSteps(zUp, id) == (if id == 3 && dz < 0 then SafeSteps else 0)
      ensures NetSteps(xs, id) == (if id == 1 then dx else 0)
      ensures NetSteps(ys, id) == (if id == 2 then dy else 0)
      ensures NetSteps(zs, id) == (if id == 3 && dz < 0 then dz - SafeSteps else if id == 3 then dz else 0)
    {
      if dz < 0 {
        OneCommandNet(zUp[0], id);
        OneCommandNet(zs[0], id);
      } else if dz > 0 {
        OneCommandNet(zs[0], id);
      }
      if dx != 0 {
        OneCommandNet(xs[0], id);
      }
      if dy != 0 {
        OneCommandNet(ys[0], id);
      }
    }
  }

  /**
   * Played on the four motors, the commands of a move shift the X, Y and Z
   * counters by the deltas and leave the plunger's counter alone.
   */
  lemma MoveDrivesMotors(m: map<int, MotorState>, dx: int, dy: int, dz: int)
    requires ValidMotors(m)
    ensures var after := PositionsOf(ApplyMoves(m, MoveCommands(dx, dy, dz)));
            && after[1] == m[1].position + dx && after[2] == m[2].position + dy
            && after[3] == m[3].position + dz && after[4] == m[4].position
  {
    MoveCommandsOrder(dx, dy, dz);
    MoveCommandsNet(dx, dy, dz);
    ApplyMovesNet(m, MoveCommands(dx, dy, dz));
  }

  /** The commands move_to_well issues: none when the identifier is rejected. */
  function MoveIssued(r: Rig, id: string, zOffset: real): seq<Movement> {
    match WellToCoordinates(id)
    case Failure(_) => []
    case Success(c) =>
      var d := Deltas(r.position, Target(c, zOffset));
      MoveCommands(d.0, d.1, d.2)
  }

  /**
   * move_to_well on a valid identifier arrives at the well's centre lowered
   * by the offset, idle, after issuing the commands for the deltas; the
   * current well is then that well in canonical form. On a rejected
   * identifier it raises the parse error, issues nothing, stays where it
   * was, and leaves the status reporting a move to that identifier.
   */
  lemma MoveToWellOutcome(r: Rig, id: string, zOffset: real)
    ensures var run := MovedToWell(r, id, zOffset);
            run.rig.trace == r.trace + Issued(MoveIssued(r, id, zOffset))
    ensures var run := MovedToWell(r, id, zOffset);
            ParseWell(id).Success? ==>
              && run.status == Completed
              && run.rig.position == Target(WellCenter(ParseWell(id).value), zOffset)
              && run.rig.operation == Idle && run.rig.operationWell == None
              && CoordinatesToWell(run.rig.position) == Some(CanonicalId(ParseWell(id).value))
    ensures var run := MovedToWell(r, id, zOffset);
            ParseWell(id).Failure? ==>
              && run.status == Raised(ParseWell(id).error)
              && run.rig.position == r.position && run.rig.trace == r.trace
              && run.rig.operation == Moving && run.rig.operationWell == Some(id)
  {
    if ParseWell(id).Success? {
      var w := ParseWell(id).value;
      CoordinatesOfId(id);
      WellRoundTrip(id);
      var target := Target(WellCenter(w), zOffset);
      HeightIgnored(WellCenter(w), target.z);
      assert CoordinatesToWell(target) == Some(CanonicalId(w));
      assert MovedToWell(r, id, zOffset).rig.position == target;
    } else {
      assert MoveIssued(r, id, zOffset) == [];
    }
  }

  /** A move strokes nothing, pauses nothing and leaves the plunger's net pulses alone. */
  lemma MoveQuiet(r: Rig, id: string, zOffset: real, s: real)
    ensures var t := MovedToWell(r, id, zOffset).rig.trace;
            Strokes(t) == Strokes(r.trace) && Pauses(t, s) == Pauses(r.trace, s)
            && PlungerNet(t) == PlungerNet(r.trace)
    ensures MovedToWell(r, id, zOffset).status == Completed <==> ParseWell(id).Success?
  {
    var cs := MoveIssued(r, id, zOffset);
    var t := MovedToWell(r, id, zOffset).rig.trace;
    assert t == r.trace + Issued(cs) by {
      MoveToWellOutcome(r, id, zOffset);
    }
    assert MovedToWell(r, id, zOffset).status == Completed <==> ParseWell(id).Success? by {
      MoveToWellOutcome(r, id, zOffset);
    }
    MoveIssuesAxesOnly(r, id, zOffset);
    AxisCommandsQuiet(cs, s);
    CountsAppend(r.trace, Issued(cs), s);
  }

  /** A move commands only the three axis motors, never the plunger. */
  lemma MoveIssuesAxesOnly(r: Rig, id: string, zOffset: real)
    ensures var cs := MoveIssued(r, id, zOffset);
            forall i :: 0 <= i < |cs| ==> cs[i].motor != 4
  {
    if WellToCoordinates(id).Success? {
      var d := Deltas(r.position, Target(WellToCoordinates(id).value, zOffset));
      MoveCommandsOrder(d.0, d.1, d.2);
    }
  }

  // ---------------------------------------------------------------------
  // Plunger strokes

  /** The counts of a single event. */
  lemma OneEventCounts(e: Event, s: real)
    ensures Strokes([e]) == if e.Motor? && e.command.motor == 4 && e.command.direction == Clockwise then 1 else 0
    ensures Pauses([e], s) == if e == Sleep(s) then 1 else 0
    ensures PlungerNet([e]) == if e.Motor? && e.command.motor == 4 then SignedSteps(e.command.direction, e.command.steps) else 0
  {
    assert [e][1..] == [];
    if e.Motor? {
      assert Commands([e]) == [e.command];
      OneCommandNet(e.command, 4);
    } else {
      assert Commands([e]) == [];
    }
  }

  /** A plunger command followed by the settling pause: one stroke if clockwise, the settle, the pulses. */
  lemma StrokeCounts(t: seq<Event>, m: Movement, s: real)
    requires m.motor == 4
    ensures var t' := t + [Motor(m), Sleep(SettleSeconds)];
            && Strokes(t') == Strokes(t) + (if m.direction == Clockwise then 1 else 0)
            && Pauses(t', s) == Pauses(t, s) + (if s == SettleSeconds then 1 else 0)
            && PlungerNet(t') == PlungerNet(t) + SignedSteps(m.direction, m.steps)
  {
    var e := [Motor(m), Sleep(SettleSeconds)];
    assert e == [Motor(m)] + [Sleep(SettleSeconds)];
    CountsAppend(t, e, s);
    CountsAppend([Motor(m)], [Sleep(SettleSeconds)], s);
    OneEventCounts(Motor(m), s);
    OneEventCounts(Sleep(SettleSeconds), s);
  }

  /** aspirate strokes once, settles once and draws the volume's pulses. */
  lemma AspirateCounts(r: Rig, volume: real, s: real)
    ensures var t := Aspirated(r, volume).trace;
            && Strokes(t) == Strokes(r.trace) + 1
            && Pauses(t, s) == Pauses(r.trace, s) + (if s == SettleSeconds then 1 else 0)
            && PlungerNet(t) == PlungerNet(r.trace) + SignedSteps(Clockwise, PlungerSteps(volume))
  {
    StrokeCounts(r.trace, Movement(4, PlungerSteps(volume), Clockwise), s);
  }

  /** dispense does not stroke, settles once and expels the volume's pulses. */
  lemma DispenseCounts(r: Rig, volume: real, s: real)
    ensures var t := Dispensed(r, volume).trace;
            && Strokes(t) == Strokes(r.trace)
            && Pauses(t, s) == Pauses(r.trace, s) + (if s == SettleSeconds then 1 else 0)
            && PlungerNet(t) == PlungerNet(r.trace) + SignedSteps(Counterclockwise, PlungerSteps(volume))
  {
    StrokeCounts(r.trace, Movement(4, PlungerSteps(volume), Counterclockwise), s);
  }

  /** Drawing and then expelling the same volume leaves the plunger where it was. */
  lemma StrokePairBalanced(r: Rig, volume: real, s: real)
    ensures var t := Dispensed(Aspirated(r, volume), volume).trace;
            && Strokes(t) == Strokes(r.trace) + 1
            && PlungerNet(t) == PlungerNet(r.trace)
            && (s != SettleSeconds ==> Pauses(t, s) == Pauses(r.trace, s))
  {
    AspirateCounts(r, volume, s);
    DispenseCounts(Aspirated(r, volume), volume, s);
  }

  /** One rinse cycle into a valid well: one stroke, no wait, the plunger back where it was. */
  lemma RinseAdvance(r: Rig, w: string, i: nat, s: real) returns (n: Rig)
    requires ParseWell(w).Success? && i < RinseCycles
    requires s != SettleSeconds
    ensures RinsedFrom(r, w, i) == RinsedFrom(n, w, i + 1)
    ensures Strokes(n.trace) == Strokes(r.trace) + 1 && Pauses(n.trace, s) == Pauses(r.trace, s)
    ensures PlungerNet(n.trace) == PlungerNet(r.trace)
  {
    var down := MovedToWell(r, w, -PickupDepth);
    MoveQuiet(r, w, -PickupDepth, s);
    StrokePairBalanced(down.rig, RinseVolume, s);
    n := Dispensed(Aspirated(down.rig, RinseVolume), RinseVolume);
  }

  /**
   * The rinse cycles from cycle i on, into a valid well: they complete,
   * make one stroke per cycle left, pause only to settle, and leave the
   * plunger where it was.
   */
  lemma {:induction false} RinseCounts(r: Rig, w: string, i: nat, s: real)
    requires ParseWell(w).Success? && i <= RinseCycles
    requires s != SettleSeconds
    ensures var run := RinsedFrom(r, w, i);
            && run.status == Completed
            && Strokes(run.rig.trace) == Strokes(r.trace) + (RinseCycles - i)
            && Pauses(run.rig.trace, s) == Pauses(r.trace, s)
            && PlungerNet(run.rig.trace) == PlungerNet(r.trace)
    decreases RinseCycles - i
  {
    if i >= RinseCycles {
      MoveQuiet(r, w, 0.0, s);
    } else {
      var n := RinseAdvance(r, w, i, s);
      RinseCounts(n, w, i + 1, s);
      var rest := RinsedFrom(n, w, i + 1);
      assert Strokes(rest.rig.trace) == Strokes(r.trace) + 1 + (RinseCycles - (i + 1));
    }
  }

  /** The wells a transfer visits are all valid identifiers. */
  ghost predicate WellsValid(pickup: string, dropoff: string, rinse: Option<string>) {
    forall id {:trigger ParseWell(id)} ::
      (id == pickup || id == dropoff || (RinseGiven(rinse) && id == rinse.value)) ==> ParseWell(id).Success?
  }

  /** Strokes per transfer: the transfer's own, and one per rinse cycle. */
  function StrokesPerTransfer(rinse: Option<string>): nat {
    if RinseGiven(rinse) then 1 + RinseCycles else 1
  }

  /** Picking up from a valid well strokes once and draws the volume's pulses. */
  lemma PickUpCounts(r: Rig, pickup: string, volume: real, s: real)
    requires ParseWell(pickup).Success? && s != SettleSeconds
    ensures var run := PickedUp(r, pickup, volume);
            && run.status == Completed
            && Strokes(run.rig.trace) == Strokes(r.trace) + 1
            && Pauses(run.rig.trace, s) == Pauses(r.trace, s)
            && PlungerNet(run.rig.trace) == PlungerNet(r.trace) + SignedSteps(Clockwise, PlungerSteps(volume))
  {
    var down := MovedToWell(r, pickup, -PickupDepth);
    MoveQuiet(r, pickup, -PickupDepth, s);
    AspirateCounts(down.rig, volume, s);
    MoveQuiet(Aspirated(down.rig, volume), pickup, 0.0, s);
  }

  /** Dropping off into a valid well does not stroke and expels the volume's pulses. */
  lemma DropOffCounts(r: Rig, dropoff: string, volume: real, s: real)
    requires ParseWell(dropoff).Success? && s != SettleSeconds
    ensures var run := DroppedOff(r, dropoff, volume);
            && run.status == Completed
            && Strokes(run.rig.trace) == Strokes(r.trace)
            && Pauses(run.rig.trace, s) == Pauses(r.trace, s)
            && PlungerNet(run.rig.trace) == PlungerNet(r.trace) + SignedSteps(Counterclockwise, PlungerSteps(volume))
  {
    var down := MovedToWell(r, dropoff, -DropoffDepth);
    MoveQuiet(r, dropoff, -DropoffDepth, s);
    DispenseCounts(down.rig, volume, s);
    MoveQuiet(Dispensed(down.rig, volume), dropoff, 0.0, s);
  }

  /**
   * A transfer between valid wells completes, strokes once (plus once per
   * rinse cycle), pauses only to settle, and returns the plunger to where it
   * started: what was drawn is expelled.
   */
  lemma TransferBalanced(r: Rig, pickup: string, dropoff: string, volume: real, rinse: Option<string>, s: real)
    requires ParseWell(pickup).Success? && ParseWell(dropoff).Success?
    requires RinseGiven(rinse) ==> ParseWell(rinse.value).Success?
    requires s != SettleSeconds
    ensures var run := Transferred(r, pickup, dropoff, volume, rinse);
            && run.status == Completed
            && Strokes(run.rig.trace) == Strokes(r.trace) + StrokesPerTransfer(rinse)
            && Pauses(run.rig.trace, s) == Pauses(r.trace, s)
            && PlungerNet(run.rig.trace) == PlungerNet(r.trace)
  {
    var picked := PickedUp(Logged(r, TransferOf(pickup, dropoff, volume)), pickup, volume);
    PickUpCounts(Logged(r, TransferOf(pickup, dropoff, volume)), pickup, volume, s);
    var dropped := DroppedOff(picked.rig, dropoff, volume);
    DropOffCounts(picked.rig, dropoff, volume, s);
    if RinseGiven(rinse) {
      RinseCounts(Logged(dropped.rig, RinsingIn(rinse.value)), rinse.value, 0, s);
    }
  }

  // ---------------------------------------------------------------------
  // Cycles and repetitions

  /** No stop() arrives from the other thread from the k-th read of the flag on. */
  ghost predicate NoStopFrom(env: Env, k: nat) {
    forall j: nat :: j >= k ==> !env.stopAt(j)
  }

  /** A wait of whole seconds is never the half-second settling pause. */
  lemma WholeSecondsNotSettle(n: int)
    ensures n as real != SettleSeconds
  {
    if n <= 0 {
      assert n as real <= 0.0;
    } else {
      assert n as real >= 1.0;
    }
  }

  /** n times k by repeated addition: the counts below grow by k per run. */
  function Times(n: nat, k: nat): nat {
    if n == 0 then 0 else k + Times(n - 1, k)
  }

  /** One run more adds k. */
  lemma TimesSucc(n: nat, k: nat)
    ensures Times(n + 1, k) == k + Times(n, k)
  {
  }

  /** Repeated addition is multiplication. */
  lemma {:induction false} TimesIsProduct(n: nat, k: nat)
    ensures Times(n, k) == n * k
  {
    if n > 0 {
      TimesIsProduct(n - 1, k);
      assert n * k == (n - 1) * k + k;
    }
  }

  /** A pause of the waited length counts once and strokes nothing. */
  lemma OnePause(t: seq<Event>, w: real)
    ensures Strokes(t + [Sleep(w)]) == Strokes(t) && Pauses(t + [Sleep(w)], w) == Pauses(t, w) + 1
  {
    CountsAppend(t, [Sleep(w)], w);
    assert [Sleep(w)][1..] == [];
  }

  /** A cycle's transfer between valid wells completes with the strokes of one transfer. */
  lemma CycleTransferCounts(r: Rig, step: PipettingStep, cycle: nat, s: real)
    requires WellsValid(step.pickupWell, step.dropoffWell, step.rinseWell) && s != SettleSeconds
    ensures var run := CycleTransfer(r, step, cycle);
            && run.status == Completed
            && Strokes(run.rig.trace) == Strokes(r.trace) + StrokesPerTransfer(step.rinseWell)
            && Pauses(run.rig.trace, s) == Pauses(r.trace, s)
  {
    var r1 := if step.cycles > 1 then Logged(r, CycleOf(cycle + 1, step.cycles)) else r;
    TransferBalanced(r1, step.pickupWell, step.dropoffWell, step.volumeMl, step.rinseWell, s);
  }

  /** The wait after a cycle counts once, and only when the step waits and the cycle is not the last. */
  lemma AfterCycleCounts(r: Rig, step: PipettingStep, cycle: nat)
    ensures var r' := AfterCycle(r, step, cycle);
            && Strokes(r'.trace) == Strokes(r.trace)
            && Pauses(r'.trace, step.waitTime as real)
               == Pauses(r.trace, step.waitTime as real) + (if step.waitTime > 0 && cycle < step.cycles - 1 then 1 else 0)
  {
    if step.waitTime > 0 && cycle < step.cycles - 1 {
      OnePause(r.trace, step.waitTime as real);
    } else {
      assert AfterCycle(r, step, cycle) == r;
    }
  }

  /*
   * The two predicates below state an equality `F(r, step, env, cycle) == run`
   * through a quantifier over the counter, triggered on F. A plain equality
   * would put a ground term of the recursive function F into every context
   * the predicate reaches, and the solver unfolds such terms eagerly; hidden
   * behind the quantifier, F is unfolded only where a proof mentions it.
   */

  /** `run` is what the cycle loop of `step` makes from cycle `cycle` on, starting in `r`. */
  ghost predicate CyclesGive(r: Rig, step: PipettingStep, env: Env, cycle: nat, run: Run) {
    forall k: nat {:trigger CyclesFrom(r, step, env, k)} :: k == cycle ==> CyclesFrom(r, step, env, k) == run
  }

  /** `run` is what the repetitions of `step` make from repetition `rep` on, starting in `r`. */
  ghost predicate RepetitionsGive(r: Rig, step: PipettingStep, env: Env, rep: nat, run: Run) {
    forall k: nat {:trigger RepetitionsFrom(r, step, env, k)} :: k == rep ==> RepetitionsFrom(r, step, env, k) == run
  }

  /** One cycle with no stop request: the loop goes on from the next cycle with one transfer more. */
  lemma CycleAdvance(r: Rig, step: PipettingStep, env: Env, cycle: nat) returns (n: Rig)
    requires WellsValid(step.pickupWell, step.dropoffWell, step.rinseWell)
    requires !r.stopRequested && !env.stopAt(r.polls)
    requires cycle < step.cycles
    ensures forall run {:trigger CyclesGive(n, step, env, cycle + 1, run)} ::
              CyclesGive(n, step, env, cycle + 1, run) ==> CyclesGive(r, step, env, cycle, run)
    ensures && !n.stopRequested && n.polls == r.polls + 1
            && Strokes(n.trace) == Strokes(r.trace) + StrokesPerTransfer(step.rinseWell)
            && Pauses(n.trace, step.waitTime as real)
               == Pauses(r.trace, step.waitTime as real) + (if step.waitTime > 0 && cycle < step.cycles - 1 then 1 else 0)
  {
    var w := step.waitTime as real;
    WholeSecondsNotSettle(step.waitTime);
    var r1 := Polled(r, env);
    var t := CycleTransfer(r1, step, cycle);
    CycleTransferCounts(r1, step, cycle, w);
    AfterCycleCounts(t.rig, step, cycle);
    n := AfterCycle(t.rig, step, cycle);
    assert CyclesFrom(r, step, env, cycle) == CyclesFrom(n, step, env, cycle + 1);
  }

  /** Past the last cycle the loop is over. */
  lemma CyclesOver(r: Rig, step: PipettingStep, env: Env, cycle: nat)
    requires cycle >= step.cycles
    ensures CyclesGive(r, step, env, cycle, Run(r, Completed))
  {
    assert CyclesFrom(r, step, env, cycle) == Run(r, Completed);
  }

  /**
   * With no stop request, cycles from `cycle` on of a step between valid
   * wells all run: one transfer per cycle left, and the wait only between
   * cycles, never after the last. The counts are stated as what the cycles
   * already done and the cycles left add up to.
   */
  lemma {:induction false} CyclesCount(r: Rig, step: PipettingStep, env: Env, cycle: nat) returns (run: Run)
    requires WellsValid(step.pickupWell, step.dropoffWell, step.rinseWell)
    requires !r.stopRequested && NoStopFrom(env, r.polls)
    requires cycle < step.cycles
    ensures CyclesGive(r, step, env, cycle, run)
    ensures && run.status == Completed && !run.rig.stopRequested && run.rig.polls > r.polls
            && Strokes(run.rig.trace) + Times(cycle, StrokesPerTransfer(step.rinseWell))
               == Strokes(r.trace) + Times(step.cycles, StrokesPerTransfer(step.rinseWell))
    ensures var w := step.waitTime as real;
            && (step.waitTime > 0 ==> Pauses(run.rig.trace, w) + cycle + 1 == Pauses(r.trace, w) + step.cycles)
            && (step.waitTime <= 0 ==> Pauses(run.rig.trace, w) == Pauses(r.trace, w))
    decreases step.cycles - cycle
  {
    assert !env.stopAt(r.polls);
    var n := CycleAdvance(r, step, env, cycle);
    var k := StrokesPerTransfer(step.rinseWell);
    TimesSucc(cycle, k);
    if cycle == step.cycles - 1 {
      CyclesOver(n, step, env, cycle + 1);
      run := Run(n, Completed);
      TimesSame(cycle + 1, step.cycles, k);
    } else {
      assert NoStopFrom(env, n.polls);
      run := CyclesCount(n, step, env, cycle + 1);
    }
  }

  /** Equal run counts, equal totals. */
  lemma TimesSame(a: nat, b: nat, k: nat)
    requires a == b
    ensures Times(a, k) == Times(b, k)
  {
  }

  /** All the cycles of a step, from the first. */
  lemma AllCyclesCount(r: Rig, step: PipettingStep, env: Env) returns (run: Run)
    requires WellsValid(step.pickupWell, step.dropoffWell, step.rinseWell)
    requires !r.stopRequested && NoStopFrom(env, r.polls)
    requires step.cycles >= 1
    ensures CyclesGive(r, step, env, 0, run)
    ensures && run.status == Completed && !run.rig.stopRequested && run.rig.polls > r.polls
            && Strokes(run.rig.trace) == Strokes(r.trace) + Times(step.cycles, StrokesPerTransfer(step.rinseWell))
            && Pauses(run.rig.trace, step.waitTime as real)
               == Pauses(r.trace, step.waitTime as real) + (if step.waitTime > 0 then step.cycles - 1 else 0)
  {
    run := CyclesCount(r, step, env, 0);
    assert Times(0, StrokesPerTransfer(step.rinseWell)) == 0;
  }

  /** The wait after a repetition counts once, and only when the step waits and it is not the last. */
  lemma AfterRepetitionCounts(r: Rig, step: PipettingStep, rep: nat)
    ensures var r' := AfterRepetition(r, step, rep);
            && Strokes(r'.trace) == Strokes(r.trace)
            && Pauses(r'.trace, step.waitTime as real)
               == Pauses(r.trace, step.waitTime as real) + (if step.waitTime > 0 && rep < step.repetitionQuantity - 1 then 1 else 0)
  {
    if rep < step.repetitionQuantity - 1 && step.waitTime > 0 {
      OnePause(r.trace, step.waitTime as real);
    } else {
      assert AfterRepetition(r, step, rep) == r;
    }
  }

  /** The rig a repetition's cycles start from: announced only when the step repeats. */
  function Announced(r: Rig, step: PipettingStep, rep: nat): (a: Rig)
    ensures a.trace == r.trace && a.stopRequested == r.stopRequested && a.polls == r.polls
  {
    var q := step.repetitionQuantity;
    if q > 1 then Logged(r, RepetitionOf(rep + 1, q)) else r
  }

  /** A repetition whose cycles complete hands the loop on to the next repetition. */
  lemma RepetitionGoesOn(r: Rig, step: PipettingStep, env: Env, rep: nat, c: Run)
    requires !Polled(r, env).stopRequested && rep < step.repetitionQuantity
    requires CyclesGive(Announced(Polled(r, env), step, rep), step, env, 0, c) && c.status == Completed
    ensures forall run {:trigger RepetitionsGive(AfterRepetition(c.rig, step, rep), step, env, rep + 1, run)} ::
              RepetitionsGive(AfterRepetition(c.rig, step, rep), step, env, rep + 1, run) ==> RepetitionsGive(r, step, env, rep, run)
  {
    assert RepetitionRun(Polled(r, env), step, env, rep) == c;
    assert RepetitionsFrom(r, step, env, rep) == RepetitionsFrom(AfterRepetition(c.rig, step, rep), step, env, rep + 1);
  }

  /**
   * One repetition with no stop request: the loop goes on from the next
   * repetition with all the step's cycles done and their waits kept.
   */
  lemma RepetitionAdvance(r: Rig, step: PipettingStep, env: Env, rep: nat) returns (n: Rig)
    requires WellsValid(step.pickupWell, step.dropoffWell, step.rinseWell)
    requires !r.stopRequested && NoStopFrom(env, r.polls)
    requires step.cycles >= 1 && rep < step.repetitionQuantity
    ensures forall run {:trigger RepetitionsGive(n, step, env, rep + 1, run)} ::
              RepetitionsGive(n, step, env, rep + 1, run) ==> RepetitionsGive(r, step, env, rep, run)
    ensures && !n.stopRequested && n.polls >= r.polls
            && Strokes(n.trace) == Strokes(r.trace) + Times(step.cycles, StrokesPerTransfer(step.rinseWell))
    ensures var w := step.waitTime as real;
            && (step.waitTime > 0 ==>
                  Pauses(n.trace, w) == Pauses(r.trace, w) + step.cycles - 1 + (if rep < step.repetitionQuantity - 1 then 1 else 0))
            && (step.waitTime <= 0 ==> Pauses(n.trace, w) == Pauses(r.trace, w))
  {
    assert !env.stopAt(r.polls);
    var r1 := Polled(r, env);
    assert r1.trace == r.trace;
    var cr := AllCyclesCount(Announced(r1, step, rep), step, env);
    RepetitionGoesOn(r, step, env, rep, cr);
    AfterRepetitionCounts(cr.rig, step, rep);
    n := AfterRepetition(cr.rig, step, rep);
  }

  /** Past the last repetition the loop is over. */
  lemma RepetitionsOver(r: Rig, step: PipettingStep, env: Env, rep: nat)
    requires rep >= step.repetitionQuantity
    ensures RepetitionsGive(r, step, env, rep, Run(r, Completed))
  {
    assert RepetitionsFrom(r, step, env, rep) == Run(r, Completed);
  }

  /**
   * Quantity mode with no stop request, for a step of at least one cycle
   * between valid wells: each of the repetitions left runs all its cycles,
   * so transfers are repetitions times cycles, and there is one wait fewer
   * than transfers: between cycles and between repetitions, never after the
   * last.
   */
  lemma {:induction false} RepetitionsCount(r: Rig, step: PipettingStep, env: Env, rep: nat) returns (run: Run)
    requires WellsValid(step.pickupWell, step.dropoffWell, step.rinseWell)
    requires !r.stopRequested && NoStopFrom(env, r.polls)
    requires step.cycles >= 1 && rep < step.repetitionQuantity
    ensures RepetitionsGive(r, step, env, rep, run)
    ensures var perRep, q := Times(step.cycles, StrokesPerTransfer(step.rinseWell)), step.repetitionQuantity;
            && run.status == Completed && !run.rig.stopRequested
            && Strokes(run.rig.trace) + Times(rep, perRep) == Strokes(r.trace) + Times(q, perRep)
    ensures var w, q := step.waitTime as real, step.repetitionQuantity;
            && (step.waitTime > 0 ==>
                  Pauses(run.rig.trace, w) + Times(rep, step.cycles) + 1 == Pauses(r.trace, w) + Times(q, step.cycles))
            && (step.waitTime <= 0 ==> Pauses(run.rig.trace, w) == Pauses(r.trace, w))
    decreases step.repetitionQuantity - rep
  {
    var n := RepetitionAdvance(r, step, env, rep);
    var c, q := step.cycles, step.repetitionQuantity;
    var perRep := Times(c, StrokesPerTransfer(step.rinseWell));
    TimesSucc(rep, perRep);
    TimesSucc(rep, c);
    if rep == q - 1 {
      RepetitionsOver(n, step, env, rep + 1);
      run := Run(n, Completed);
      TimesSame(rep + 1, q, perRep);
      TimesSame(rep + 1, q, c);
    } else {
      assert NoStopFrom(env, n.polls);
      run := RepetitionsCount(n, step, env, rep + 1);
    }
  }

  /** What is left of a product once part of it is done. */
  lemma ProductLeft(a: int, b: int, k: int)
    ensures a * k - b * k == (a - b) * k
  {
  }

  /**
   * execute_step_with_cycles with no stop request, on a step between valid
   * wells: from any cycle on it returns True after one transfer per cycle
   * left, and waits one time fewer when the step waits, never otherwise.
   */
  lemma CyclesTotals(r: Rig, step: PipettingStep, env: Env, cycle: nat)
    requires WellsValid(step.pickupWell, step.dropoffWell, step.rinseWell)
    requires !r.stopRequested && NoStopFrom(env, r.polls)
    requires cycle < step.cycles
    ensures var run := CyclesFrom(r, step, env, cycle);
            && run.status == Completed
            && Strokes(run.rig.trace) == Strokes(r.trace) + (step.cycles - cycle) * StrokesPerTransfer(step.rinseWell)
            && Pauses(run.rig.trace, step.waitTime as real)
               == Pauses(r.trace, step.waitTime as real) + (if step.waitTime > 0 then (step.cycles - cycle) - 1 else 0)
  {
    var run := CyclesLeftTotals(r, step, env, cycle);
  }

  /** The totals of CyclesTotals, for the run the cycle loop gives. */
  lemma CyclesLeftTotals(r: Rig, step: PipettingStep, env: Env, cycle: nat) returns (run: Run)
    requires WellsValid(step.pickupWell, step.dropoffWell, step.rinseWell)
    requires !r.stopRequested && NoStopFrom(env, r.polls)
    requires cycle < step.cycles
    ensures CyclesGive(r, step, env, cycle, run)
    ensures && run.status == Completed
            && Strokes(run.rig.trace) == Strokes(r.trace) + (step.cycles - cycle) * StrokesPerTransfer(step.rinseWell)
            && Pauses(run.rig.trace, step.waitTime as real)
               == Pauses(r.trace, step.waitTime as real) + (if step.waitTime > 0 then (step.cycles - cycle) - 1 else 0)
  {
    run := CyclesCount(r, step, env, cycle);
    CyclesArithmetic(Strokes(run.rig.trace), Strokes(r.trace), step.cycles, cycle, StrokesPerTransfer(step.rinseWell));
  }

  /** The strokes left after `cycle` of `cycles` runs of k strokes are done. */
  lemma CyclesArithmetic(s: int, start: int, cycles: nat, cycle: nat, k: nat)
    requires cycle <= cycles && s + Times(cycle, k) == start + Times(cycles, k)
    ensures s == start + (cycles - cycle) * k
  {
    TimesIsProduct(cycles, k);
    TimesIsProduct(cycle, k);
    ProductLeft(cycles, cycle, k);
  }

  /**
   * Quantity mode with no stop request: from any repetition on, each
   * repetition left makes all the step's cycles, and there is one wait
   * fewer than transfers.
   */
  lemma QuantityTotals(r: Rig, step: PipettingStep, env: Env, rep: nat)
    requires WellsValid(step.pickupWell, step.dropoffWell, step.rinseWell)
    requires !r.stopRequested && NoStopFrom(env, r.polls)
    requires step.cycles >= 1 && rep < step.repetitionQuantity
    ensures var run := RepetitionsFrom(r, step, env, rep);
            var runs := (step.repetitionQuantity - rep) * step.cycles;
            && run.status == Completed
            && Strokes(run.rig.trace) == Strokes(r.trace) + runs * StrokesPerTransfer(step.rinseWell)
            && Pauses(run.rig.trace, step.waitTime as real)
               == Pauses(r.trace, step.waitTime as real) + (if step.waitTime > 0 then runs - 1 else 0)
  {
    var run := RepetitionsLeftTotals(r, step, env, rep);
  }

  /** The totals of QuantityTotals, for the run the repetitions give. */
  lemma RepetitionsLeftTotals(r: Rig, step: PipettingStep, env: Env, rep: nat) returns (run: Run)
    requires WellsValid(step.pickupWell, step.dropoffWell, step.rinseWell)
    requires !r.stopRequested && NoStopFrom(env, r.polls)
    requires step.cycles >= 1 && rep < step.repetitionQuantity
    ensures RepetitionsGive(r, step, env, rep, run)
    ensures var runs := (step.repetitionQuantity - rep) * step.cycles;
            && run.status == Completed
            && Strokes(run.rig.trace) == Strokes(r.trace) + runs * StrokesPerTransfer(step.rinseWell)
            && Pauses(run.rig.trace, step.waitTime as real)
               == Pauses(r.trace, step.waitTime as real) + (if step.waitTime > 0 then runs - 1 else 0)
  {
    run := RepetitionsCount(r, step, env, rep);
    var w := step.waitTime as real;
    RepetitionsArithmetic(Strokes(run.rig.trace), Strokes(r.trace), Pauses(run.rig.trace, w), Pauses(r.trace, w),
                          step.waitTime > 0, step.repetitionQuantity, rep, step.cycles, StrokesPerTransfer(step.rinseWell));
  }

  /**
   * The strokes and waits left after `rep` of `q` repetitions of c runs of
   * k strokes are done.
   */
  lemma RepetitionsArithmetic(s: int, start: int, p: int, pStart: int, waits: bool, q: nat, rep: nat, c: nat, k: nat)
    requires rep <= q
    requires s + Times(rep, Times(c, k)) == start + Times(q, Times(c, k))
    requires waits ==> p + Times(rep, c) + 1 == pStart + Times(q, c)
    ensures s == start + ((q - rep) * c) * k
    ensures waits ==> p == pStart + (q - rep) * c - 1
  {
    RunsLeft(q, rep, c, k);
  }

  /** Runs of runs: what q repetitions of c runs of k add up to, less the first rep repetitions. */
  lemma RunsLeft(q: nat, rep: nat, c: nat, k: nat)
    requires rep <= q
    ensures Times(q, Times(c, k)) - Times(rep, Times(c, k)) == ((q - rep) * c) * k
    ensures Times(q, c) - Times(rep, c) == (q - rep) * c
  {
    var perRep := Times(c, k);
    TimesIsProduct(c, k);
    TimesIsProduct(q, perRep);
    TimesIsProduct(rep, perRep);
    ProductLeft(q, rep, perRep);
    ProductAssociates(q - rep, c, k);
    TimesIsProduct(q, c);
    TimesIsProduct(rep, c);
    ProductLeft(q, rep, c);
  }

  lemma ProductAssociates(n: int, c: int, k: int)
    ensures n * (c * k) == (n * c) * k
  {
  }

  /**
   * A stop() that lands before the first read of the flag in a cycle loop
   * ends it at once: nothing moves, only the coils are released.
   */
  lemma StopBeforeCycleMovesNothing(r: Rig, step: PipettingStep, env: Env, cycle: nat)
    requires cycle < step.cycles && env.stopAt(r.polls)
    ensures var run := CyclesFrom(r, step, env, cycle);
            run.status == StopSeen && run.rig.trace == r.trace + [ReleaseAll]
            && run.rig.position == r.position
  {
  }

  // ---------------------------------------------------------------------
  // home

  lemma HomeWellParses()
    ensures ParseWell(HomeWell) == Success(Well('A', 1))
  {
    assert HomeWell[1..] == "1";
    ParseIntOfDecimalText(1);
    assert DecimalText(1) == "1";
  }

  lemma ConcatAssociates<T>(a: seq<T>, b: seq<T>, c: seq<T>)
    ensures (a + b) + c == a + (b + c)
  {
  }

  /** The steps of the raise are those of the point's height, negated. */
  lemma RaiseUndoesHeight(c: Coords)
    ensures Trunc(-c.z * StepsPerMmZ as real) == -CoordinatesToSteps(c).2
  {
    var v := c.z * StepsPerMmZ as real;
    TruncNegated(v);
    assert -c.z * StepsPerMmZ as real == -v;
  }

  /** The move to A1 at the top issues the commands of a move to the origin. */
  lemma HomeMoveTrace(r: Rig)
    ensures var d := Deltas(r.position, Coords(0.0, 0.0, 0.0));
            MovedToWell(r, HomeWell, 0.0).rig.trace == r.trace + Issued(MoveCommands(d.0, d.1, d.2))
  {
    HomeWellParses();
    CoordinatesOfId(HomeWell);
    assert WellCenter(Well('A', 1)) == Coords(0.0, 0.0, 0.0);
    MoveToWellOutcome(r, HomeWell, 0.0);
  }

  /** What home adds to the trace from a position: the raise, then a move to the origin. */
  function HomeTail(at: Coords): seq<Event> {
    var d := Deltas(at, Coords(0.0, 0.0, 0.0));
    HomeRaise(at.z) + Issued(MoveCommands(d.0, d.1, d.2))
  }

  /** home's trace: the raise, then the commands of a move from the old position to the origin. */
  lemma HomeTrace(r: Rig)
    ensures Homed(r).trace == r.trace + HomeTail(r.position)
  {
    var d := Deltas(r.position, Coords(0.0, 0.0, 0.0));
    HomeMoveTrace(HomeRaised(r));
    ConcatAssociates(r.trace, HomeRaise(r.position.z), Issued(MoveCommands(d.0, d.1, d.2)));
  }

  /** The raise drives Z alone, by the tip's depth in steps. */
  lemma HomeRaiseNet(z: real)
    ensures var t := Commands(HomeRaise(z));
            && NetSteps(t, 1) == 0 && NetSteps(t, 2) == 0
            && NetSteps(t, 3) == (if z < 0.0 then Trunc(-z * StepsPerMmZ as real) else 0)
  {
    var raise := HomeRaise(z);
    if z < 0.0 {
      var c := Movement(3, Trunc(-z * StepsPerMmZ as real), Clockwise);
      assert raise[1..] == [];
      assert Commands(raise) == [c];
      OneCommandNet(c, 1);
      OneCommandNet(c, 2);
      OneCommandNet(c, 3);
    } else {
      assert Commands(raise) == [];
    }
  }

  /** home ends at A1. */
  lemma HomeEndsAtA1(r: Rig)
    ensures Homed(r).position == Coords(0.0, 0.0, 0.0)
    ensures CoordinatesToWell(Homed(r).position) == Some("A1")
  {
    var w := Well('A', 1);
    assert WellCenter(w) == Coords(0.0, 0.0, 0.0);
    CenterMapsBack(w);
    assert CanonicalId(w) == "A1";
  }

  /**
   * home brings X and Y back to step 0. Z is raised by the tip's depth
   * before the move, and the move, still starting from the old negative z,
   * raises it by that depth again: a tip below the top of the well ends
   * twice its depth higher, not at the top. (HomeTrace says this tail is
   * what home adds to the trace.)
   */
  lemma HomeRaisesTwice(at: Coords)
    ensures var t := Commands(HomeTail(at));
            var from := CoordinatesToSteps(at);
            && NetSteps(t, 1) == -from.0 && NetSteps(t, 2) == -from.1
            && NetSteps(t, 3) == (if at.z < 0.0 then 2 * Trunc(-at.z * StepsPerMmZ as real) else -from.2)
  {
    var d := Deltas(at, Coords(0.0, 0.0, 0.0));
    var raise := HomeRaise(at.z);
    var cs := MoveCommands(d.0, d.1, d.2);
    assert CoordinatesToSteps(Coords(0.0, 0.0, 0.0)) == (0, 0, 0);
    MoveCommandsNet(d.0, d.1, d.2);
    HomeRaiseNet(at.z);
    CommandsAppend(raise, Issued(cs));
    CommandsOfIssued(cs);
    NetStepsAppend(Commands(raise), cs, 1);
    NetStepsAppend(Commands(raise), cs, 2);
    NetStepsAppend(Commands(raise), cs, 3);
    RaiseUndoesHeight(at);
  }

  /** Ten millimetres into a well, home ends a full ten millimetres above the top of the plate. */
  lemma HomeFromTenDeep()
    ensures CoordinatesToSteps(Coords(0.0, 0.0, -10.0)).2 == -1000
    ensures NetSteps(Commands(HomeTail(Coords(0.0, 0.0, -10.0))), 3) == 2000
  {
    var at := Coords(0.0, 0.0, -10.0);
    HomeRaisesTwice(at);
    assert -at.z * StepsPerMmZ as real == 1000.0;
  }

  /**
   * What home evidently means to add to the trace: the raise out of the
   * well, then the move to the origin from the top of the plate, where the
   * raise has taken the tip.
   */
  function IntendedHomeTail(at: Coords): seq<Event> {
    var top := if at.z < 0.0 then at.(z := 0.0) else at;
    var d := Deltas(top, Coords(0.0, 0.0, 0.0));
    HomeRaise(at.z) + Issued(MoveCommands(d.0, d.1, d.2))
  }

  /** The intended home brings every axis back to step 0, Z included, from any position. */
  lemma IntendedHomeReturnsToOrigin(at: Coords)
    ensures var t := Commands(IntendedHomeTail(at));
            var from := CoordinatesToSteps(at);
            NetSteps(t, 1) == -from.0 && NetSteps(t, 2) == -from.1 && NetSteps(t, 3) == -from.2
  {
    var top := if at.z < 0.0 then at.(z := 0.0) else at;
    var d := Deltas(top, Coords(0.0, 0.0, 0.0));
    var raise := HomeRaise(at.z);
    var cs := MoveCommands(d.0, d.1, d.2);
    assert CoordinatesToSteps(Coords(0.0, 0.0, 0.0)) == (0, 0, 0);
    assert CoordinatesToSteps(top).0 == CoordinatesToSteps(at).0 && CoordinatesToSteps(top).1 == CoordinatesToSteps(at).1;
    if at.z < 0.0 {
      assert CoordinatesToSteps(top).2 == 0;
    }
    MoveCommandsNet(d.0, d.1, d.2);
    HomeRaiseNet(at.z);
    CommandsAppend(raise, Issued(cs));
    CommandsOfIssued(cs);
    NetStepsAppend(Commands(raise), cs, 1);
    NetStepsAppend(Commands(raise), cs, 2);
    NetStepsAppend(Commands(raise), cs, 3);
    RaiseUndoesHeight(at);
  }
}
