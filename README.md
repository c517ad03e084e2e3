# Pipetting robot core, modelled in Dafny

This project models the motion core of a laboratory pipetting robot:

- **Coordinate mapper** (`coordinate_mapper.dfy`, module `CoordinateMapper`).
  It covers the plate geometry of a 96-well plate: rows A-H, columns 1-12, and a pitch of 12 mm.
  - Well identifiers are parsed. Python's `int()` on the column text is modelled with its own grammar: the white space it strips (ASCII tab to carriage return and the space, and the Unicode white space above U+007F), a sign, underscores between digits, and the 4300-digit limit.
  - An identifier maps to the centre of its well.
  - A point maps back to the nearest well, using Python's round-half-to-even.
  - Millimetres convert to motor steps, using `int()`'s truncation toward zero.
- **Stepper control** (`stepper_control.dfy`, module `StepperControl`).
  - A `StepperMotor` class: a step counter, a half- or full-step coil table, and the coil pattern last written.
  - A `StepperController` class that owns four motors by identifier and routes commands, batches, homing routines and stop-all to them.
  - The function `ApplyMoves` specifies what a batch does to the four motors. It stops at the first unknown motor identifier, as the `ValueError` does.
- **Pipetting workflows**.
  - `pipetting_spec.dfy` (module `PipettingSpec`) writes every workflow as a function of a rig state `Rig`. The rig holds the controller's fields plus the ordered trace of what was asked of the hardware: motor commands, pauses, and the release of all coils.
  - `pipetting_controller.dfy` (module `PipettingControl`) holds the `PipettingController` class. Its fields are the controller's fields, and each method is proved to produce exactly the state its workflow function describes.
  - Two things come from outside the controller and are given as an environment `Env`:
    - `stop()` being called from another thread. The controller only sees this when it reads its flag.
    - The wall clock, read by the time-frequency repetition mode.
  - `pipetting_properties.dfy` (module `PipettingProperties`) proves what the workflows achieve:
    - the log buffer keeps the last 100 entries;
    - the motor commands of a move, their order and their net effect;
    - a transfer draws and expels the same volume;
    - stroke and wait counts for cycles and repetitions;
    - what a stop request prevents;
    - where `home` leaves each axis.
- **Drift test** (`motor_drift_test.dfy`, module `MotorDriftTest`).
  - Moving to a limit switch, with the safety ceiling on pulses.
  - The homing and back-and-forth cycle loop, and the drift recorded per cycle.
  - The summary statistics.
  - The limit switches are an oracle: a function from a move and a pulse count to whether the switch reads triggered.

`wrappers.dfy` holds the `Option` and `Result` datatypes. The controller's errors are modelled as values:
- a `ValueError` from a bad well identifier is the `Raised` status of a run;
- a bad motor identifier or pipette count is a `Result` failure.

## Model

| member | source | states |
|---|---|---|
| CoordinateMapper.TrimStart | pipetting_controller.py:106 | `int()` strips leading white space: what is left does not start with white space |
| CoordinateMapper.TrimStartDropsSpace | pipetting_controller.py:106 | what `TrimStart` keeps is a suffix of the input and every character it drops is white space, so with `TrimStart`'s own ensures it is exactly the input without its leading white space |
| CoordinateMapper.TrimEnd | pipetting_controller.py:106 | `int()` strips trailing white space: the result is a prefix of the input and does not end with white space |
| CoordinateMapper.TrimEndDropsSpace | pipetting_controller.py:106 | every character `TrimEnd` drops from the end is white space, so the result is exactly the input without its trailing white space |
| CoordinateMapper.DigitChar | pipetting_controller.py:106 | each value below 10 has a decimal digit whose value it is |
| CoordinateMapper.DecimalText | pipetting_controller.py:86 | `str()` of a non-negative integer is never empty |
| CoordinateMapper.DecimalTextIsDigits | pipetting_controller.py:86 | `str(n)` is a digit group that spells n, with no underscores |
| CoordinateMapper.ParseIntOfDigitGroup | pipetting_controller.py:106 | `int()` reads a digit group of at most 4300 digits as the number it spells |
| CoordinateMapper.ParseIntOfDecimalText | pipetting_controller.py:86-106 | `int(str(n)) == n` for every n below 10000, which includes every column number |
| CoordinateMapper.DecimalTextIsShort | pipetting_controller.py:86 | `str(n)` has at most 1, 2, 3 or 4 characters below 10, 100, 1000 or 10000 |
| CoordinateMapper.UpperAscii | pipetting_controller.py:104 | `upper()` turns a-z into A-Z and leaves every other character alone |
| CoordinateMapper.ParseWell | pipetting_controller.py:91-116 | success if and only if the identifier has at least two characters, its first upper-cases to a row letter, and `int()` reads its remainder as 1..12; then the row is the upper-cased letter and the column is that number; too short means MalformedId, and an unreadable column means ColumnNotInteger, whatever the row |
| CoordinateMapper.IndexOf | pipetting_controller.py:131 | `ROWS.index(row)`: the first position of the row letter |
| CoordinateMapper.CanonicalIdParses | pipetting_controller.py:84-116 | the identifier `coordinates_to_well` builds for a well parses back to that well |
| CoordinateMapper.WellToCoordinates | pipetting_controller.py:118-146 | succeeds exactly when `parse_well` does, passes its error through, and puts the point at the top of the well (z = 0) |
| CoordinateMapper.RoundHalfEven | pipetting_controller.py:75-80 | `round()` gives an integer within one half of the value, and the even one on a tie |
| CoordinateMapper.CoordinatesToWell | pipetting_controller.py:62-88 | a well exactly when both rounded indices lie on the plate; the identifier returned is `ROWS[r] + str(c + 1)` for those indices, which parses back to that well by `CanonicalIdParses` |
| CoordinateMapper.Trunc | pipetting_controller.py:159-161 | `int()` on a float rounds toward zero |
| CoordinateMapper.CoordinatesToSteps | pipetting_controller.py:149-163 | each axis is converted on its own, with its own steps per millimetre, rounding toward zero |
| CoordinateMapper.RoundOfInteger | pipetting_controller.py:75 | rounding an integral value gives it back |
| CoordinateMapper.CenterIndices | pipetting_controller.py:131-141 | a well's centre divided by the pitch gives its column index and row index |
| CoordinateMapper.CenterMapsBack | pipetting_controller.py:62-88 | the centre of every well maps back to that well's canonical identifier |
| CoordinateMapper.WellRoundTrip | pipetting_controller.py:62-146 | round trip: for every accepted identifier, `coordinates_to_well(well_to_coordinates(id))` is its canonical form |
| CoordinateMapper.CentersByIndex | pipetting_controller.py:138-141 | centres differ along x by whole pitches of column and along y by whole pitches of row, so x is equal exactly when the columns are, and y exactly when the rows are |
| CoordinateMapper.TruncNegated | pipetting_controller.py:159-161 | truncation toward zero is symmetric about zero |
| CoordinateMapper.HeightIgnored | pipetting_controller.py:62-88 | the well under a point does not depend on its height |
| CoordinateMapper.AxesIndependent | pipetting_controller.py:118-146 | for any two accepted identifiers, x depends on the column alone, y on the row alone, and z is 0 |
| CoordinateMapper.CoordinatesOfId | pipetting_controller.py:118-146 | an accepted identifier maps to the centre of the well it names |
| CoordinateMapper.LowerCasePaddedIdAccepted | pipetting_controller.py:104-106 | "a01" is accepted as A1 |
| CoordinateMapper.SpacedIdAccepted | pipetting_controller.py:104-106 | "h 1_2 " is accepted as H12, because `int()` accepts white space and an underscore |
| CoordinateMapper.ColumnCheckedBeforeRow | pipetting_controller.py:105-111 | "Z1x" fails on its column, and "Z1" fails on its row |
| CoordinateMapper.SeparatorNotStripped | pipetting_controller.py:104-108 | "A\x1c1" fails on its column: `int()` does not strip the ASCII separators U+001C-U+001F, though `str.isspace()` counts them |
| CoordinateMapper.ShortAndWideIdsRefused | pipetting_controller.py:101-113 | "A13" fails on its column range and "A" on its length |
| CoordinateMapper.MidpointsGoToEvenIndex | pipetting_controller.py:75-86 | a point midway between two columns goes to the even column index |
| CoordinateMapper.LeftEdgeMidpoint | pipetting_controller.py:75-88 | half a pitch left of column 1 still maps to A1, and 6.5 mm left of it maps to nothing |
| CoordinateMapper.LeftOfPlate | pipetting_controller.py:75-88 | every point more than half a pitch left of column 1 maps to nothing, whatever its y and z |
| StepperControl.Entries | stepper_control.py:28-45 | the half-step table has 8 patterns and the full-step table 4, each of 4 coil values |
| StepperControl.SignedSteps | stepper_control.py:73-93 | a count of 0 or less gives no pulse; clockwise counts up; counter-clockwise counts down |
| StepperControl.Cycle | stepper_control.py:86-91 | the table index always stays inside the table |
| StepperControl.CycleStep | stepper_control.py:86-91 | moving the index one place at a time agrees with moving it all at once |
| StepperControl.CycleUndo | stepper_control.py:86-91 | n places forward and n back restore the index |
| StepperControl.Pulse | stepper_control.py:82-91 | one pulse keeps the motor state well formed |
| StepperControl.Stepped | stepper_control.py:73-93 | any number of pulses keeps the motor state well formed |
| StepperControl.SteppedClosedForm | stepper_control.py:73-93 | n pulses move the counter by exactly n, signed by the direction, and the index n places along the table; the last pattern written is the one n - 1 places along; none is written for n <= 0 |
| StepperControl.StepUndo | stepper_control.py:73-93 | n clockwise pulses followed by n counter-clockwise pulses restore the counter and the table index |
| StepperControl.StepperMotor.constructor | stepper_control.py:47-65 | a new motor is at 0, in half-step mode at the first entry, with its inputs low |
| StepperControl.StepperMotor.Step | stepper_control.py:73-93 | the new state is that many pulses later: the counter moves by the signed count, and the index moves that many places along the same table |
| StepperControl.StepperMotor.UseFullStep | stepper_control.py:109-112 | the full-step table, from its first entry; nothing else changes |
| StepperControl.StepperMotor.UseHalfStep | stepper_control.py:114-117 | the half-step table, from its first entry; nothing else changes |
| StepperControl.StepperMotor.Stop | stepper_control.py:119-123 | all inputs low; the counter and the table index are kept |
| StepperControl.StepperMotor.GetPosition | stepper_control.py:125-127 | returns the step counter |
| StepperControl.StepperMotor.ResetPosition | stepper_control.py:129-131 | the counter reads 0; nothing else changes |
| StepperControl.PositionsOf | stepper_control.py:216-221 | a position for each motor identifier: that motor's counter |
| StepperControl.ApplyMoves | stepper_control.py:181-189 | a batch keeps the four motors well formed |
| StepperControl.FirstInvalid | stepper_control.py:153-165 | no command is invalid exactly when every command names a known motor; otherwise it is the first unknown one |
| StepperControl.ApplyOne | stepper_control.py:167-179 | a command to a known motor steps that motor alone |
| StepperControl.MoveStopsAt | stepper_control.py:163-164 | a command to an unknown motor moves nothing and ends the batch |
| StepperControl.ApplyMovesNet | stepper_control.py:181-189 | a valid batch moves each motor's counter by the net signed pulses it was given, whatever the interleaving, and keeps its table |
| StepperControl.ApplyMovesOthersUntouched | stepper_control.py:181-189 | a motor the batch never names is unchanged |
| StepperControl.ApplyMovesStopsAtInvalid | stepper_control.py:153-189 | a batch with an unknown motor does exactly what its commands before that one do |
| StepperControl.ApplyMovesAppend | stepper_control.py:181-189 | two batches one after the other act as their concatenation |
| StepperControl.FirstInvalidAt | stepper_control.py:153-165 | a batch whose first k commands are valid and whose k-th is not fails at k |
| StepperControl.HomeMoves | stepper_control.py:191-208 | a homing routine keeps the four motors well formed |
| StepperControl.HomeMovesZeroesNamed | stepper_control.py:191-208 | a valid homing routine leaves every motor it names with counter 0, and every other motor exactly as it was |
| StepperControl.HomeOne | stepper_control.py:206-208 | one homing command is the move of that motor, then its counter set to 0 |
| StepperControl.ResetBelow | stepper_control.py:198-204 | exactly the counters below the bound are reset to 0 |
| StepperControl.StopBelow | stepper_control.py:210-214 | exactly the motors below the bound are released |
| StepperControl.StepperController.States | stepper_control.py:145-151 | the controller always holds four well-formed motors, with identifiers 1-4 |
| StepperControl.StepperController.constructor | stepper_control.py:138-151 | four new motors named Motor_1 .. Motor_4, on their pins, each at 0 |
| StepperControl.StepperController.GetMotor | stepper_control.py:153-165 | the motor for identifiers 1-4; a ValueError for any other number |
| StepperControl.StepperController.MoveMotor | stepper_control.py:167-179 | fails exactly for an unknown identifier; otherwise only the named motor steps |
| StepperControl.StepperController.ResetMotor | stepper_control.py:202-203 | only the named motor's counter reads 0 |
| StepperControl.StepperController.StopMotor | stepper_control.py:212-213 | only the named motor is released |
| StepperControl.StepperController.MoveMultiple | stepper_control.py:181-189 | commands run in list order; fails exactly when one names an unknown motor, reporting the first such motor, and stops there |
| StepperControl.StepperController.HomeAll | stepper_control.py:191-208 | without a routine, every counter reads 0 and nothing moves; with one, each command moves its motor and zeroes its counter, failing exactly at an unknown motor with the error naming the first unknown motor |
| StepperControl.StepperController.ResetAll | stepper_control.py:198-204 | every counter reads 0; nothing moves |
| StepperControl.StepperController.RunHoming | stepper_control.py:205-208 | a routine's commands in order, each zeroing its motor's counter; fails exactly at an unknown motor, with the error naming the first unknown motor |
| StepperControl.StepperController.StopAll | stepper_control.py:210-214 | every motor is released; no counter or table index changes |
| StepperControl.StepperController.GetAllPositions | stepper_control.py:216-221 | every motor's counter, by identifier |
| MotorDriftTest.SeekFromFacts | motor_drift_test.py:81-106 | from k pulses with the switch open so far, the move stops at the first closing, or at the ceiling with the switch open |
| MotorDriftTest.SeekLimitCorrect | motor_drift_test.py:73-106 | never more than 50000 pulses; the limit is reached exactly when the switch closes within the ceiling, and then after exactly the pulses it took |
| MotorDriftTest.SeekAlreadyAtLimit | motor_drift_test.py:86-106 | a switch already triggered stops the move before any pulse |
| MotorDriftTest.DriftRecord | motor_drift_test.py:157-172 | the record keeps its cycle and both counts; the step difference is their absolute difference, and the drift in millimetres times 200 is that difference |
| MotorDriftTest.DriftSymmetric | motor_drift_test.py:158-159 | drift does not depend on which count is larger, is never negative, and is 0 exactly when the counts agree |
| MotorDriftTest.DriftExample | motor_drift_test.py:158-171 | 5012 forward and 4988 backward record 24 steps and 0.12 mm |
| MotorDriftTest.RunCycle | motor_drift_test.py:131-172 | a cycle's record carries its cycle number |
| MotorDriftTest.CyclesFromUnfold | motor_drift_test.py:131-174 | a cycle that misses a switch ends the run unrecorded; otherwise its record comes before the rest |
| MotorDriftTest.CyclesFromShape | motor_drift_test.py:131-174 | the records are those of consecutive cycles, in order, at most as many as asked for; a run cut short stops at a cycle that failed |
| MotorDriftTest.CyclesNumbered | motor_drift_test.py:131-174 | the recorded cycles are numbered 1, 2, ... |
| MotorDriftTest.MaxDrift | motor_drift_test.py:217 | `max()`: no drift is larger, and some drift equals it |
| MotorDriftTest.MinDrift | motor_drift_test.py:218 | `min()`: no drift is smaller, and some drift equals it |
| MotorDriftTest.Summarize | motor_drift_test.py:205-218 | no summary exactly when nothing was recorded; otherwise it counts the cycles recorded |
| MotorDriftTest.SumDriftBounds | motor_drift_test.py:216 | drifts between lo and hi sum to between n·lo and n·hi |
| MotorDriftTest.MeanWithin | motor_drift_test.py:216 | drifts between bounds have a mean between them |
| MotorDriftTest.SummaryOrdered | motor_drift_test.py:214-218 | minimum <= average <= maximum |
| MotorDriftTest.MotorDriftTester.constructor | motor_drift_test.py:33-47 | no cycles recorded |
| MotorDriftTest.MotorDriftTester.MoveMotorUntilLimit | motor_drift_test.py:73-106 | the pulses given, and whether the switch was reached, are those of the specified seek |
| MotorDriftTest.MotorDriftTester.RunDriftTest | motor_drift_test.py:108-192 | False, with nothing recorded, exactly when homing misses the minimum switch; otherwise the specified cycle records are appended in order |
| PipettingSpec.Pushed | pipetting_controller.py:200-214 | logging appends the entry and keeps the last 100 entries |
| PipettingSpec.SliceStart | pipetting_controller.py:216-218 | Python's start index of `s[i:]`, with negative i counted from the end |
| PipettingSpec.LastLogs | pipetting_controller.py:216-218 | the last n entries for n > 0; the whole buffer for n = 0; the buffer without its first -n entries for n < 0 |
| PipettingSpec.Issued | pipetting_controller.py:264-320 | one motor event per command, in order |
| PipettingSpec.MovedToWell | pipetting_controller.py:264-320 | a move never reads the stop flag or the clock and keeps the stop flag and the pipette count |
| PipettingSpec.Aspirated | pipetting_controller.py:322-336 | position kept, back to idle; the trace gains the plunger drawing the volume's pulses, then the settle |
| PipettingSpec.Dispensed | pipetting_controller.py:338-352 | position kept, back to idle; the trace gains the plunger expelling the volume's pulses, then the settle |
| PipettingSpec.RinsedFrom | pipetting_controller.py:364-373 | the rinse cycles never read the stop flag or the clock |
| PipettingSpec.Rinsed | pipetting_controller.py:354-373 | a rinse never reads the stop flag or the clock |
| PipettingSpec.Transferred | pipetting_controller.py:375-404 | a transfer never reads the stop flag or the clock |
| PipettingSpec.PickedUp | pipetting_controller.py:389-393 | the pick-up never reads the stop flag or the clock |
| PipettingSpec.DroppedOff | pipetting_controller.py:395-399 | the drop-off never reads the stop flag or the clock |
| PipettingSpec.Stopped | pipetting_controller.py:545-549 | the flag is set, the position is kept, and every coil is released |
| PipettingSpec.Polled | pipetting_controller.py:415-416 | a read of the flag sees it set exactly when it was already set or another thread has just set it |
| PipettingSpec.CycleTransfer | pipetting_controller.py:418-427 | a cycle's transfer never reads the stop flag or the clock |
| PipettingSpec.AfterCycle | pipetting_controller.py:429-432 | the wait follows only a cycle that is not the last, and only when the step waits |
| PipettingSpec.CyclesFrom | pipetting_controller.py:406-433 | a loop that ends on a stop request has the flag set; one that completes leaves it as it was, and clear if any cycle was made |
| PipettingSpec.CyclesRun | pipetting_controller.py:406-433 | the same, for the whole cycle loop |
| PipettingSpec.RepetitionRun | pipetting_controller.py:475-480 | the same, for one repetition's cycles |
| PipettingSpec.AfterRepetition | pipetting_controller.py:482-486 | the wait follows only a repetition that is not the last, and only when the step waits |
| PipettingSpec.RepetitionsFrom | pipetting_controller.py:467-486 | never reads the clock; completing with the flag clear means it was clear before |
| PipettingSpec.TimedFrom | pipetting_controller.py:488-516 | the time loop only reads forward in the clock and the flag; completing with the flag clear means it was clear before |
| PipettingSpec.StepBody | pipetting_controller.py:466-525 | completing with the flag clear means it was clear before |
| PipettingSpec.Halted | pipetting_controller.py:452-458 | a halted sequence clears the flag and moves nothing |
| PipettingSpec.SequenceFrom | pipetting_controller.py:450-539 | a completed sequence leaves the flag clear, unless no step was left and it was already set |
| PipettingSpec.SequenceRun | pipetting_controller.py:436-543 | clears the flag, announces the sequence and runs its steps; a completed sequence leaves the flag clear, because a `stop()` from another thread is seen only at a poll and no poll follows the last step (a `stop()` arriving during the closing log lines would leave the flag set in the source) |
| PipettingSpec.HomeRaised | pipetting_controller.py:553-558 | the raise is issued, and the tracked position is not updated |
| PipettingSpec.Homed | pipetting_controller.py:551-566 | home ends at the origin, with the trace of a move to A1 made after the raise |
| PipettingSpec.PipetteCountSet | pipetting_controller.py:577-589 | succeeds exactly for 1 or 3 and then records the count; otherwise an InvalidPipetteCount error |
| PipettingProperties.LastNOfLastN | pipetting_controller.py:210-214 | trimming to the last n before appending loses nothing that the last n of the whole would keep |
| PipettingProperties.StartupLog | pipetting_controller.py:184-198 | a new controller holds exactly its two start-up lines, has issued nothing and has no stop request |
| PipettingProperties.LogKeepsLastEntries | pipetting_controller.py:200-214 | however many entries are logged, the buffer is the last 100 of everything logged, oldest first |
| PipettingProperties.LogDropsOldest | pipetting_controller.py:212-214 | a full buffer stays full: each entry pushes out the oldest |
| PipettingProperties.CountsAppend | pipetting_controller.py:264-352 | strokes, pauses and plunger pulses add up over concatenated traces |
| PipettingProperties.AxisCommandsQuiet | pipetting_controller.py:290-317 | axis commands neither stroke the plunger nor pause |
| PipettingProperties.MoveCommandsOrder | pipetting_controller.py:287-317 | a move commands motors 1-3 only, none with zero pulses, X before Y; a descending move opens with the safe raise and ends lowering through it; a zero delta names no motor |
| PipettingProperties.MoveCommandsNet | pipetting_controller.py:287-317 | the net pulses of a move are the deltas, axis by axis, and none reach the plunger |
| PipettingProperties.MoveDrivesMotors | pipetting_controller.py:287-317 | on the four motors, a move's commands shift the X, Y and Z counters by the deltas and leave the plunger's counter alone |
| PipettingProperties.MoveToWellOutcome | pipetting_controller.py:264-320 | on a valid identifier: idle, at the centre lowered by the offset, over that well; on a bad one: the parse error, nothing issued, position kept, the Moving status left in place |
| PipettingProperties.MoveQuiet | pipetting_controller.py:264-320 | a move strokes nothing, pauses nothing, and completes exactly when the identifier parses |
| PipettingProperties.MoveIssuesAxesOnly | pipetting_controller.py:290-317 | a move never commands the plunger |
| PipettingProperties.AspirateCounts | pipetting_controller.py:322-336 | aspirate strokes once, settles once, and draws the volume's pulses |
| PipettingProperties.DispenseCounts | pipetting_controller.py:338-352 | dispense does not stroke, settles once, and expels the volume's pulses |
| PipettingProperties.StrokePairBalanced | pipetting_controller.py:322-352 | aspirating then dispensing a volume leaves the plunger where it was |
| PipettingProperties.RinseCounts | pipetting_controller.py:354-373 | a rinse in a valid well completes, with one stroke per cycle left and the plunger back where it was |
| PipettingProperties.PickUpCounts | pipetting_controller.py:389-393 | picking up from a valid well strokes once and draws the volume |
| PipettingProperties.DropOffCounts | pipetting_controller.py:395-399 | dropping off into a valid well expels the volume |
| PipettingProperties.TransferBalanced | pipetting_controller.py:375-404 | a transfer between valid wells completes, strokes once plus once per rinse cycle, pauses only to settle, and returns the plunger to where it started |
| PipettingProperties.CycleTransferCounts | pipetting_controller.py:418-427 | a cycle's transfer between valid wells completes with one transfer's strokes |
| PipettingProperties.AfterCycleCounts | pipetting_controller.py:429-432 | the wait after a cycle counts once, and only when the cycle is not the last |
| PipettingProperties.CyclesCount | pipetting_controller.py:406-433 | with no stop request and any wait time, every cycle left runs one transfer; a step with a positive wait waits between cycles but never after the last, and one without never waits |
| PipettingProperties.AfterRepetitionCounts | pipetting_controller.py:482-486 | the wait after a repetition counts once, and only when it is not the last |
| PipettingProperties.RepetitionsCount | pipetting_controller.py:467-486 | with no stop request and any wait time, each repetition left runs all the step's cycles; with a positive wait there is one wait fewer than transfers, and with none no wait |
| PipettingProperties.CyclesTotals | pipetting_controller.py:406-433 | `execute_step_with_cycles` with no stop request returns True after (cycles left) × (transfer strokes) strokes, for any wait time, and (cycles left) - 1 waits when the wait is positive, none otherwise |
| PipettingProperties.QuantityTotals | pipetting_controller.py:467-486 | quantity mode with no stop request makes (repetitions × cycles) transfers for any wait time, and one wait fewer when the wait is positive (a step repeated 3 times waits exactly twice), none otherwise |
| PipettingProperties.StopBeforeCycleMovesNothing | pipetting_controller.py:413-416 | a stop before the first flag read of a cycle loop ends it at once: the loop returns False, only the coils are released, and the position is kept |
| PipettingProperties.HomeWellParses | pipetting_controller.py:560 | "A1" parses to row A, column 1 |
| PipettingProperties.HomeMoveTrace | pipetting_controller.py:560 | the move to A1 issues the commands of a move to the origin |
| PipettingProperties.HomeTrace | pipetting_controller.py:551-566 | home's trace is the raise, then the commands of a move from the old position to the origin |
| PipettingProperties.HomeRaiseNet | pipetting_controller.py:556-558 | the raise drives Z alone, by the tip's depth in steps |
| PipettingProperties.HomeEndsAtA1 | pipetting_controller.py:562-566 | home's position is the origin, which is over A1 |
| PipettingProperties.HomeRaisesTwice | pipetting_controller.py:551-566 | as written, home brings X and Y to step 0, but raises Z by twice the tip's depth |
| PipettingProperties.HomeFromTenDeep | pipetting_controller.py:551-566 | from 10 mm deep (Z step -1000), home gives Z +2000 steps |
| PipettingProperties.IntendedHomeReturnsToOrigin | pipetting_controller.py:551-566 | with the raise taken into account, home brings every axis to step 0 from any position |
| PipettingControl.PipettingController.constructor | pipetting_controller.py:184-198 | the loaded position and count, no stop request, idle, and exactly the two start-up lines logged |
| PipettingControl.PipettingController.Log | pipetting_controller.py:200-214 | append, drop the oldest past 100, so the buffer is the last 100 entries; nothing else changes |
| PipettingControl.PipettingController.GetLogs | pipetting_controller.py:216-218 | the slice `[-last_n:]` of the buffer: the last n entries for n > 0, all of them for n = 0 |
| PipettingControl.PipettingController.ClearLogs | pipetting_controller.py:220-222 | the buffer is empty; nothing else changes |
| PipettingControl.PipettingController.MoveMotor | pipetting_controller.py:292 | the trace gains exactly the command |
| PipettingControl.PipettingController.Sleep | pipetting_controller.py:334 | the trace gains exactly the pause |
| PipettingControl.PipettingController.MoveToWell | pipetting_controller.py:264-320 | the new state and status are exactly those of `MovedToWell` |
| PipettingControl.PipettingController.IssueMove | pipetting_controller.py:287-317 | the trace gains exactly the move's commands |
| PipettingControl.PipettingController.Aspirate | pipetting_controller.py:322-336 | the new state is exactly `Aspirated` |
| PipettingControl.PipettingController.Dispense | pipetting_controller.py:338-352 | the new state is exactly `Dispensed` |
| PipettingControl.PipettingController.Rinse | pipetting_controller.py:354-373 | the new state and status are exactly `Rinsed` |
| PipettingControl.PipettingController.ExecuteTransfer | pipetting_controller.py:375-404 | the new state and status are exactly `Transferred` |
| PipettingControl.PipettingController.ExecuteStepWithCycles | pipetting_controller.py:406-433 | the new state and status are exactly `CyclesRun` |
| PipettingControl.PipettingController.RepeatByQuantity | pipetting_controller.py:467-486 | the new state and status are exactly `RepetitionsFrom` from the first repetition |
| PipettingControl.PipettingController.RepeatByTime | pipetting_controller.py:490-516 | the new state and status are exactly `TimedFrom` from the start reading |
| PipettingControl.PipettingController.RunStepBody | pipetting_controller.py:466-525 | the new state and status are exactly `StepBody` |
| PipettingControl.PipettingController.ReportHalt | pipetting_controller.py:452-458 | the new state is exactly `Halted` |
| PipettingControl.PipettingController.ExecuteSequence | pipetting_controller.py:436-543 | the new state and status are exactly `SequenceRun` |
| PipettingControl.PipettingController.Stop | pipetting_controller.py:545-549 | the new state is exactly `Stopped` |
| PipettingControl.PipettingController.PollStop | pipetting_controller.py:415-416 | a read of the flag: the state becomes `Polled`, and the flag is returned |
| PipettingControl.PipettingController.ReadClock | pipetting_controller.py:494-509 | the next clock reading, consumed; none, with nothing changed, once the readings are used up |
| PipettingControl.PipettingController.Home | pipetting_controller.py:551-566 | the new state is exactly `Homed` |
| PipettingControl.PipettingController.GetCurrentWell | pipetting_controller.py:568-575 | the well under the current position |
| PipettingControl.PipettingController.SetPipetteCount | pipetting_controller.py:577-589 | succeeds exactly for 1 or 3, recording the count; otherwise a ValueError with nothing changed |

## Left out

- Floating-point numbers are modelled as exact reals. The well pitch and the constants are exact in binary floating point, but sums and products of arbitrary floats are not. Where the source truncates a product with `int()`, the float product can fall just below an integer and give one step fewer than the model. For example, `int(1.005 * 1000)` is 1004 in the source, but `PipettingSpec.Aspirated` and `PipettingSpec.Dispensed` give 1005 pulses. Likewise `CoordinateMapper.CoordinatesToSteps` can differ by a step for a position loaded from the position file. Positions the controller computes itself are exact. The drift summary's `avg_drift` is a float sum divided by a count, so `MotorDriftTest.SummaryOrdered` (min <= average <= max) holds for exact reals but can fail in the source: the drifts [0.1, 0.1, 0.1] average to 0.10000000000000002, above their maximum 0.1.
- The drift record's `round(drift_mm, 3)` is left out. A step difference divided by 200 has at most three decimals, so the rounding changes nothing.
- GPIO, console output and the timestamps of log lines and drift records are left out. A log line is modelled by what it reports.
- The drift test's elapsed times are left out, because they come from the clock: the `time_elapsed` that `move_motor_until_limit` returns, and the record fields `forward_time`, `backward_time` and `total_cycle_time`.
- Motor pulse delays, the motor speed arguments, `rotate_degrees`, `setup_gpio`, `cleanup` and `check_limit_switch` are left out. The switches are an oracle.
- `save_position` and `load_position` are not modelled: the position file is I/O. The controller's constructor takes the loaded position and count as parameters.
- The drift test's `save_data`, its JSON file and `main` are not modelled.
- The calibration constants read from environment variables are fixed at their default values.
- In the pipetting controller, the four motors appear as the ordered trace of commands issued to the stepper controller. `MoveDrivesMotors` connects that trace to `StepperControl.ApplyMoves`.
- Another thread's `stop()` is seen only when the controller reads its flag (a poll). `stop()` calls from the environment are not interleaved between other statements.
- The wall clock is a finite sequence of readings. A time-frequency loop that runs out of readings ends as if its duration had passed.
- Several members split one source method into parts: `IssueMove` from `move_to_well`; `RepeatByQuantity`, `RepeatByTime`, `RunStepBody` and `ReportHalt` from `execute_sequence`; `ResetMotor`, `StopMotor`, `ResetAll` and `RunHoming` from `home_all` and `stop_all`. `PollStop`, `ReadClock`, `MoveMotor` and `Sleep` stand for a read of the flag, `time.time()`, `move_motor` and `time.sleep`.
- `CoordinateMapper.ParseInt`: Python's `int()` also accepts decimal digits of other scripts (for example Arabic-Indic digits); only ASCII digits are modelled.
- `PipettingControl.PipettingController.RepeatByTime` requires an interval and a duration, as the source's branch does. The other case runs the step once, in `RunStepBody`.
- The wait times of a step are whole seconds, as the step's type declares. The counts in `CyclesCount`, `RepetitionsCount`, `CyclesTotals` and `QuantityTotals` cover any wait time, including none, but assume valid wells and no stop request. They do not count the stroke or wait totals of time-frequency mode, which depend on the clock.
- Default arguments are not modelled as defaults: every caller passes every value. These are `get_logs`'s `last_n = 50`; `move_to_well`'s `z_offset = 0.0`; `StepperMotor.step`'s `direction = CLOCKWISE` and `steps = 1`; the stepper controller's `move_motor`'s `direction = CLOCKWISE`; `home_all`'s `home_sequence = None`, which is the `None` of the `Option` that `HomeAll` takes; and the `PipettingStep` defaults `cycles = 1`, `repetition_mode = 'quantity'`, `repetition_quantity = 1`, `repetition_interval = None`, `repetition_duration = None` and `pipette_count = 3`. `PipettingSpec.StepWithDefaults` builds the step those defaults give.

## Findings

| source | as written | input that shows it | evidently intended | confidence | as-written member | corrected member |
|---|---|---|---|---|---|---|
| pipetting_controller.py:551-566 | `home` raises Z by the tip's depth without updating the tracked position. The move to A1 then starts from the old negative z and raises Z by the depth again. | The tip 10 mm into a well (Z step -1000): home gives Z +2000 steps and leaves the tip 10 mm above the top, while the position reads z = 0 | After the raise, the move starts from the top of the plate, so Z ends at step 0 | high, from the proof; not executed | PipettingProperties.HomeRaisesTwice, PipettingProperties.HomeFromTenDeep | PipettingProperties.IntendedHomeReturnsToOrigin |
