# Verification of the Grbl motion controller port

This project models the firmware of a Grbl 0.9j port for the Nucleo-F401RE: the look-ahead planner, segment
preparation and the step interrupt, the settings store in two flash sectors, the realtime hold and safety-door
machine, the g-code interpreter, the CoreXY maps, arcs, and the decimal reader and printer. It proves what the
firmware's comments promise, and what its parts rely on in one another: plans that are optimal and never stale, profiles that are
continuous and bounded, step counts that are exact whatever the interleaving, updates that survive power
failures, an interlock that holds in every run, and maps that invert one another.

`dafny verify dfyconfig.toml` checks everything.

## Files

| file | about |
|---|---|
| SpeedPlan.dfy | the two planning passes over a list of blocks, as a specification |
| Planner.dfy | the planner's ring buffer, its passes and the cached planned pointer |
| PlanHistory.dfy | whole histories of planner events, and the planner's methods as those events |
| LineBlock.dfy | from a line to a planner block: length, direction, axis limits, corner speed |
| VelocityProfile.dfy | the velocity profile of a block |
| SegmentTravel.dfy | the loop that travels one segment along a profile |
| SegmentPrep.dfy | step accounting, rates and smoothing levels |
| StPrepBuffer.dfy | one segment of planner, preparation and step generator together, in operation and in holds |
| Motion.dfy | the state between any two passes, and the preparation loop, through lines, holds, resumes and ticks |
| Bresenham.dfy | the step interrupt's line algorithm with adaptive smoothing |
| CoreXY.dfy | motor and axis coordinates, synchronising and homing |
| StepperMachine.dfy | planner, preparation and interrupt interleaved, as a state machine |
| StepperDriver.dfy | the real rings and the interrupt, each step one step of that machine |
| FlashOps.dfy | sectors, atomic operations, recovery and power failures |
| FlashStore.dfy | the flash routines and record writers, as sequences of those operations |
| FlashEffects.dfy | what the writers achieve |
| FlashErased.dfy | updates that start from an erased status word |
| Protocol.dfy | realtime passes, suspension and the safety door |
| Numbers.dfy | the decimal reader and printer |
| GcodeWords.dfy | importing g-code words |
| GcodeLine.dfy | lines of characters as words |
| Gcode.dfy | checking and executing a block |
| GcodeMeaning.dfy | what the words of a line mean: modes, goals, arcs, records |
| GcodeChecks.dfy | which blocks pass the checks, condition by condition |
| GcodeCases.dfy | lines for which the interpreter departs from its comments, and exactly which |
| Arc.dfy | arcs as short lines |
| Reals.dfy | vectors, rounding and products of reals |

## How the code is modelled

- Floats are reals, and speeds are squares where the code keeps squares. Square roots are nonnegative witnesses
  given to the methods that take them; the exact cosine and sine of an arc correction are given, with squares
  that add to one; the hypotenuse and the root of the
  interpreter's arcs are parameters too.
- Step counts, ring indices, segment ticks and timer cycles are unbounded numbers, with the ring wrap-arounds
  and the 16-bit timer limit written out. The rings have the sizes of the build: 18 blocks, 6 segments, 5 block
  data slots. `COREXY` and `ADAPTIVE_MULTI_AXIS_STEP_SMOOTHING` are on, as in the board's `config.h`.
- Interrupts are steps of a machine. Between any two of its steps the main program may plan, prepare or load;
  realtime flags, the door pin, alarms and the presence of a block are inputs of each pass.
- Single byte and word programs and sector erases are atomic, and power may fail between any two of them.
- The tail block advances as the profile allows: from squared speed v over part of the block, to a speed from
  which the planned exit speed can still be met.
- The g-code word conversion to an 8-bit integer part and a 16-bit hundredfold fraction wraps, where the C
  conversion of values out of range is left to the compiler. The store the interpreter reads is the eight
  coordinate records, each present or unreadable.

## Findings

Where the code and its comments, or two pieces of code, disagree, the model follows the code:

- Every word of the copy sector up to word 1020 is restored, although the limit is a byte offset (flash.c:314).
  The extra words are erased in the copy and change nothing.
- The status for a restored main sector is tested but never written (flash.c:335). Recovery is sound without it.
- Right after both sectors have been erased the status reads as erased, and the journal does not protect the
  main sector until one recovery has completed (`FlashEffects.ErasedStatusUnprotected`). An update begun before
  that, of a coordinate record or of the settings, is atomic exactly under the condition of
  `FlashErased.CoordErasedAtomic` and `FlashErased.GlobalErasedAtomic`; `FlashErased.CoordErasedLoses` and
  `FlashErased.GlobalErasedLoses` are updates that lose both the old data and the new.
- The erase check compares the new checksum with one computed over the old data and not with the stored byte, so
  a record whose stored checksum is worn is not mended in place (`FlashEffects.WornChecksumStays`).
- The direct write of the global settings checks the sector base and writes four bytes further on
  (`FlashEffects.GlobalReadAfterWrite`). Bytes that are lost in this way exist (`FlashEffects.GlobalInPlaceLoses`),
  but settings as the firmware keeps them never are: their maximum travel is negative and their acceleration
  positive, so that a sign bit always asks for the erase (`FlashEffects.KeptSettingsReadBack`).
- An erase leaves the three padding bytes of a coordinate record erased, whatever they held.
- At the end of an acceleration ramp the segment's time is computed from the block's distance at the start of
  the segment (stepper.c:878), not from where the pass began, so it exceeds the time taken whenever the segment
  had travelled before (`SegmentTravel.ChargedFromSegmentStart`). `SegmentTravel.TravelSegment` says exactly when
  the segment's time is the profile's, and `SegmentTravel.SlowSegment` is a run of the loop where it is not. In such
  a segment the next slice can be negative (`SegmentTravel.NegativeSlice`, `SegmentTravel.SlowSegmentOverruns`);
  the loop still ends on the profile.
- With smoothing, counters start at exactly half a step; without, at the half rounded down. The two differ by one
  pulse at whole steps in exactly the case `Bresenham.AgainstUnscaled` names.
- Synchronising the planner from motor steps rounds an odd motor sum, and copies Z without its direction sign
  (planner.c:447, system.c:360). After moves from a synchronised position each axis reads back exactly under the
  condition of `CoreXY.SyncAfterMove`.
- The length of a line ignores the direction inversions and its direction does not (planner.c:309-320), so with
  only one of X and Y inverted and different steps per millimetre the direction need not have unit length
  (`LineBlock.UnitLength`).
- The length of a line, and with it the speed along it, is measured along the motors: X and Y count by the square
  root of two too much, so it is the true distance the comment names only along Z (planner.c:295,
  `LineBlock.LengthAlongMotors`).
- G49 is accepted with any decimals (gcode.c:250, `GcodeMeaning.LegalExactly`).
- The condition meant to spare rapid moves from needing an F word in inverse time is always true (gcode.c:423;
  `GcodeCases.RapidsNeedFeed`, `GcodeCases.RapidRefused`).
- When G94 follows G93, an F word in inches is taken as millimetres (gcode.c:441-447; `GcodeCases.FeedIsInMm`,
  `GcodeCases.InchesTakenAsMm`).
- G10 misses its P or L word only when both are missing (gcode.c:542; `GcodeCases.CoordinateDataWords`,
  `GcodeCases.MissingPAccepted`).
- An arc given by radius is refused when start and target coincide in all axes, not in the plane, so a chord of
  zero in the plane reaches the division by it (gcode.c:694, 753; `GcodeCases.RadiusArcWithoutChord`,
  `GcodeCases.ArcWithoutChordAccepted`).
- The arc constant 0.16666667 exceeds a sixth, so a rotation by less than about 0.0007 radians lengthens the
  radius, by less than a part in ten million (`Arc.NotLengthened`).
- A program end that cannot read its default coordinate system reports a fault after the state has changed
  (gcode.c:1060; `Gcode.FaultKeepsState`, `GcodeCases.ProgramEndFaults`). The program flow then stays completed, so
  the next accepted line without a program-flow word ends the program (`GcodeMeaning.EndsProgram`, `GcodeCases.NextLineEnds`).
- A program end loads the default coordinate system over the one a G92 or G10 on its line was set in
  (gcode.c:1059; `Gcode.SetPointThenMove`).

## Model

| member | source | states |
|---|---|---|
| SpeedPlan.PlanFeasible | firmware/grbl_port/common_src/planner.c:72-89 | the two-pass plan respects every junction cap, every block's acceleration both ways and the final stop exactly when any plan from the same tail speed can |
| SpeedPlan.PlanGreatest | firmware/grbl_port/common_src/planner.c:85-89 | no feasible plan from the same tail speed is faster at any block: no further speed improvement is possible |
| SpeedPlan.FeasibleBelowBackward | firmware/grbl_port/common_src/planner.c:78-80 | every feasible plan stays below the reverse pass, whose last block ends at standstill |
| SpeedPlan.PlanMonotone | firmware/grbl_port/common_src/planner.c:97-100 | a block added never lowers an entry speed of the reference plan: it can only further increase the plan |
| SpeedPlan.CacheSound | firmware/grbl_port/common_src/planner.c:91-99 | behind a block bracketed at its maximum, or fully accelerated into, appending a block changes nothing: the planned pointer need never be recomputed past |
| SpeedPlan.DecelerationFixed | firmware/grbl_port/common_src/planner.c:94-97 | a deceleration pass that reaches a cap is fixed below it whatever is appended |
| SpeedPlan.PlanProgress | firmware/grbl_port/common_src/planner.c:81-83 | legal progress within the tail block leaves every later entry speed as planned |
| SpeedPlan.PlanDrop | firmware/grbl_port/common_src/planner.c:212-220 | discarding the tail leaves the rest of the plan as it was, entered at the planned speed |
| Planner.OptimalPlanIsGreatest | firmware/grbl_port/common_src/planner.c:85-89 | an optimal buffer's entry speeds are feasible and pointwise the greatest |
| Planner.OptimalPlanReachable | firmware/grbl_port/common_src/planner.c:72-83 | the exit speed an optimal plan asks of the tail block can be reached in the distance left, at or below nominal speed |
| Planner.OptimalPlanAppend | firmware/grbl_port/common_src/planner.c:425-430 | an appended block leaves the buffer ready for recalculation from the planned pointer, and able to stop |
| Planner.OptimalPlanDiscard | firmware/grbl_port/common_src/planner.c:212-220 | discarding the tail of an optimal buffer leaves it optimal, its planned pointer pushed along |
| Planner.OptimalPlanProgress | firmware/grbl_port/common_src/planner.c:81-83 | progress within the executing block keeps the buffer optimal and its exit speed |
| Planner.ReplanFromStandstill | firmware/grbl_port/common_src/planner.c:466-472 | whatever a hold did in the tail block, the buffer can be replanned from standstill with the pointer back at the tail |
| Planner.StoppableTail | firmware/grbl_port/common_src/planner.c:466-472 | nothing that happens inside the tail block, nor discarding it, keeps a later block from being braked to its planned exit |
| Planner.RecalculateReplans | firmware/grbl_port/common_src/planner.c:129-199 | the skipping recalculation is sound: started at an optimal breakpoint it gives the entry speeds of the two full passes from the tail, and an optimal breakpoint of them |
| Planner.ReverseReached | firmware/grbl_port/common_src/planner.c:143-169 | the reverse pass gives the reference deceleration past the pointer, though it skips blocks already at their maximum |
| Planner.ForwardReached | firmware/grbl_port/common_src/planner.c:172-198 | the forward pass turns deceleration speeds into the plan and moves the pointer only to optimal breakpoints |
| Planner.Planner.PlannerRecalculate | firmware/grbl_port/common_src/planner.c:129-199 | on the ring, from any state, exactly the skipping recalculation: the queue, the planned pointer and whether the executing block is to be taken up again |
| Planner.Planner.ReversePass | firmware/grbl_port/common_src/planner.c:137-170 | on the ring, the reverse pass over every block past the planned pointer, with the tail refreshed when it is reached |
| Planner.Planner.ForwardPass | firmware/grbl_port/common_src/planner.c:172-198 | on the ring, the forward pass from the planned pointer, with its pointer moves |
| Planner.Planner.AppendBlock | firmware/grbl_port/common_src/planner.c:411-431 | a queued line gets the least of its junction speed and both nominal speeds as cap, keeps every other block's data, the present and exit speed and every cached speed, and leaves the ring optimal |
| Planner.Planner.PlanDiscardCurrentBlock | firmware/grbl_port/common_src/planner.c:212-220 | drops the tail and pushes the planned pointer when the tail was it |
| Planner.Planner.PlanCheckFullBuffer | firmware/grbl_port/common_src/planner.c:239-243 | full exactly when one slot is left |
| Planner.Planner.PlanGetExecBlockExitSpeedSqr | firmware/grbl_port/common_src/planner.c:230-235 | the entry speed of the block after the tail, zero when there is none |
| Planner.Planner.StUpdatePlanBlockParameters | firmware/grbl_port/common_src/stepper.c:699-706 | stores the speed reached in the tail block as its entry speed and flags the block for reloading, if one was loaded |
| Planner.Planner.Progress | firmware/grbl_port/common_src/stepper.c:1010-1013 | preparing part of the tail block keeps the plan optimal and its exit speed planned |
| Planner.Planner.FinishBlock | firmware/grbl_port/common_src/stepper.c:1031-1034 | a finished block is discarded; an optimal plan stays optimal, and a hold that left it no faster than planned may take up the next |
| Planner.Planner.EnterHold | firmware/grbl_port/common_src/protocol.c:258-264 | a hold begins with the executing block to be taken up again, at a speed from which every planned exit can be braked to |
| Planner.NextBrakes | firmware/grbl_port/common_src/stepper.c:772-800 | a speed no higher than the planned exit is within the next block's nominal speed and can be braked to its exit |
| Planner.Planner.HoldLoadBlock | firmware/grbl_port/common_src/stepper.c:739-778 | during a hold a new block is entered at the exit speed reached, a partly cut one at its present speed, and is left no faster than planned |
| Planner.Planner.PlanCycleReinitialize | firmware/grbl_port/common_src/planner.c:466-472 | after a hold the whole ring is replanned from standstill and is optimal |
| PlanHistory.CacheAlwaysSound | firmware/grbl_port/common_src/planner.c:91-102 | in every history of appends, skipping recalculations, progress, discards, holds and resumes, the buffer equals the reference plan from its tail, the exit speed taken up with the tail is still the planned one, the plan is feasible, and no feasible plan is faster |
| PlanHistory.HistorySound | firmware/grbl_port/common_src/planner.c:91-102 | what every history of planner events keeps, in and out of holds |
| PlanHistory.NextSound | firmware/grbl_port/common_src/planner.c:91-102 | each event keeps it, from any state that has it |
| PlanHistory.HoldsNeverOverrun | firmware/grbl_port/common_src/stepper.c:788-800 | in every history a hold leaves no block faster than planned and takes none up faster than its nominal speed |
| PlanHistory.AppendStep | firmware/grbl_port/common_src/planner.c:422-431 | queueing a block on the ring is the append event of these histories, with the recalculation as the planner does it |
| PlanHistory.LoadStep | firmware/grbl_port/common_src/stepper.c:733-745 | taking up the tail is the load event |
| PlanHistory.ExecuteStep | firmware/grbl_port/common_src/stepper.c:1010-1013 | preparing part of the tail is the execute event |
| PlanHistory.FinishStep | firmware/grbl_port/common_src/stepper.c:1031-1034 | discarding the prepared tail is the finish event, in a hold or not |
| PlanHistory.StartHoldStep | firmware/grbl_port/common_src/protocol.c:258-264 | entering a hold is the start event; at standstill the plan stays in force |
| PlanHistory.HoldLoadStep | firmware/grbl_port/common_src/stepper.c:772-800 | taking up a block in a hold is its load event |
| PlanHistory.HoldExecuteStep | firmware/grbl_port/common_src/stepper.c:1009-1027 | preparing or rounding up part of the tail in a hold is its execute event |
| PlanHistory.EndHoldStep | firmware/grbl_port/common_src/planner.c:466-472 | replanning from standstill is the end event |
| LineBlock.LimitRates | firmware/grbl_port/common_src/planner.c:341-362 | the limiting loop completes the direction and finds the greatest rate and acceleration along it at which no axis exceeds its own limits, and the cosine of the corner with the line before |
| LineBlock.NothingFaster | firmware/grbl_port/common_src/planner.c:341-355 | no faster rate up to the one asked for keeps every axis within its limits |
| LineBlock.CornerCircle | firmware/grbl_port/common_src/planner.c:371-408 | from the corner's own half angle: the corner speed is the one whose centripetal acceleration is the block's own on the circle tangent to both lines that passes the corner at the junction deviation |
| LineBlock.SharperIsSlower | firmware/grbl_port/common_src/planner.c:398-408 | the sharper the corner, the slower it is taken, strictly between the straight line and the reversal, where nothing more changes |
| LineBlock.CornerCap | firmware/grbl_port/common_src/planner.c:398-420 | a queued line's cap is the speed of its corner's circle, or a nominal speed if that is less, and zero where the path doubles back |
| LineBlock.StepsNearest | firmware/grbl_port/common_src/planner.c:286-298 | each axis goes to the step nearest to its own target |
| LineBlock.DirectionBits | firmware/grbl_port/common_src/planner.c:305-314 | a motor's direction bit is set exactly when the block's direction along it is negative |
| LineBlock.LengthAlongMotors | firmware/grbl_port/common_src/planner.c:293-327 | with equal steps per millimetre the length counts the way in X and Y by the square root of two too much, so it is the true distance exactly for a line along Z |
| LineBlock.AskedRate | firmware/grbl_port/common_src/planner.c:332-339 | unless the minimum applies, an inverse-time line takes the time asked for, and any other runs at its feed rate |
| LineBlock.UnitLength | firmware/grbl_port/common_src/planner.c:301-349 | the direction has unit length exactly when A and B have the same steps per millimetre, X and Y are inverted alike, or the line is along one of them |
| LineBlock.Measure | firmware/grbl_port/common_src/planner.c:307-408 | the length, direction, rate, acceleration and corner speed of a line that has steps |
| LineBlock.LinePlanner.PlanBufferLine | firmware/grbl_port/common_src/planner.c:258-431 | a line without steps changes nothing; any other becomes one queued block with the data measured from it, entered no faster than the corner and both lines' rates allow, and leaves the whole plan optimal |
| VelocityProfile.ComputeProfile | firmware/grbl_port/common_src/stepper.c:801-837 | the profile is the fastest there is: with any distance left, the squared speed is the least of the nominal one, what the acceleration allows since the entry, and what still brakes to the exit; its junctions are in order and its speeds match at them |
| VelocityProfile.NoneFaster | firmware/grbl_port/common_src/stepper.c:801-837 | no way to drive the block within its entry, exit, nominal speed and acceleration is faster anywhere |
| VelocityProfile.FastestContinues | firmware/grbl_port/common_src/stepper.c:1010-1013 | what is left of the fastest profile after a segment is the fastest from there |
| VelocityProfile.HoldIsSlowest | firmware/grbl_port/common_src/stepper.c:788-800 | a forced deceleration loses speed as fast as the acceleration allows |
| VelocityProfile.ComputeHoldProfile | firmware/grbl_port/common_src/stepper.c:788-800 | the hold profile decelerates from the present speed to zero inside the block, or to the speed left at its end |
| VelocityProfile.CoherentTraces | firmware/grbl_port/common_src/stepper.c:786-837 | along a coherent profile the squared speed is continuous from start to exit, changes by at most twice the acceleration per millimetre, and stays between zero and nominal |
| SegmentTravel.TravelSegment | firmware/grbl_port/common_src/stepper.c:860-927 | the segment loop ends for every positive acceleration, leaves speed and distance on the profile, moves on by at least the distance of one step unless the profile ends, is given another slice only while more than that is left, and charges exactly the time the profile takes, except exactly when its acceleration ramp ends after an earlier pass of the segment, and then more |
| SegmentTravel.AccelerationPass | firmware/grbl_port/common_src/stepper.c:871-885 | one acceleration pass stays on the ramp or ends it exactly at its junction, even when the time left is negative |
| SegmentTravel.RampTimeTaken | firmware/grbl_port/common_src/stepper.c:878 | twice the distance over the sum of the speeds is the time a constant acceleration takes |
| SegmentTravel.ChargedFromSegmentStart | firmware/grbl_port/common_src/stepper.c:878 | the end of the acceleration ramp is charged the time it takes exactly if the segment had travelled nothing before, and more otherwise |
| SegmentTravel.NegativeSlice | firmware/grbl_port/common_src/stepper.c:915-925 | the pass after the end of the ramp is given a negative time exactly if the ramp's end is further from where the segment began than two slices at the mean speed of the pass |
| SegmentTravel.PassTime | firmware/grbl_port/common_src/stepper.c:870-917 | every pass of the loop charges the time the profile takes from where it began to where it ended, but for the overcharge at the end of the acceleration ramp |
| SegmentTravel.OverchargeLate | firmware/grbl_port/common_src/stepper.c:878 | the overcharge is nothing exactly if the ramp ends in the segment's first pass |
| SegmentTravel.SlowSegment | firmware/grbl_port/common_src/stepper.c:860-927 | a run of the loop on a slow segment that charges more time than the profile takes |
| SegmentTravel.SlowSegmentOverruns | firmware/grbl_port/common_src/stepper.c:869-925 | the passes of that run: three slices of acceleration, the end of the ramp in the fourth pass, and a negative slice after it |
| SegmentTravel.CruisePass | firmware/grbl_port/common_src/stepper.c:886-899 | one cruise pass, ending the cruise exactly at the deceleration point |
| SegmentTravel.DecelerationPass | firmware/grbl_port/common_src/stepper.c:900-914 | one deceleration pass stays on the ramp or ends the profile exactly |
| SegmentPrep.SmoothSegment | firmware/grbl_port/common_src/stepper.c:971-986 | the smoothing level multiplies ticks and divides cycles by the same power of two, keeps the timer above 8 kHz as long as three levels can and below 16 kHz, and fits 16 bits |
| SegmentPrep.Prep.PrepareSegment | firmware/grbl_port/common_src/stepper.c:840-1035 | steps emitted plus rounded-up steps left is the block's step count; outside holds every segment has a step; a finished block has emitted all its steps; the segment's steps take the time of its travel along the profile, and a fastest profile stays one |
| SegmentPrep.Prep.TravelFullStep | firmware/grbl_port/common_src/stepper.c:865-927 | outside a hold a segment covers at least one whole step |
| SegmentPrep.Prep.RateSegment | firmware/grbl_port/common_src/stepper.c:967-986 | the time of a segment's whole steps at the adjusted rate, and the partial step's time carried on, make up exactly the time travelled and what was carried before; the timer follows the rate, rounded up, to within its smoothing level |
| SegmentPrep.Prep.StopInBlock | firmware/grbl_port/common_src/stepper.c:945-957 | a hold that ends inside a block keeps every step not yet emitted, rounded up |
| SegmentPrep.StepsTaken | firmware/grbl_port/common_src/stepper.c:866-867 | travelling at least 1.25 steps, or to the block's end, passes a whole step, and steps are left exactly while distance is |
| StPrepBuffer.TakeUpBlock | firmware/grbl_port/common_src/stepper.c:733-837 | a block taken up from an optimal plan gets the fastest profile from its entry to the planned exit speed |
| StPrepBuffer.TakeUpBlockInHold | firmware/grbl_port/common_src/stepper.c:772-800 | a block taken up during a hold, partly cut or new, gets the forced deceleration, within its nominal speed and leaving it no faster than planned |
| StPrepBuffer.PrepSegment | firmware/grbl_port/common_src/stepper.c:1005-1035 | every segment in normal operation is one the step generator's machine can cut, and leaves planner, preparation and machine in step, the plan optimal and the profile the fastest; the last one has emitted the block's whole count, drops the block and leaves the next to be taken up new |
| StPrepBuffer.CutSegment | firmware/grbl_port/common_src/stepper.c:840-1038 | what one pass of the loop commits to the ring is enabled in the specification machine, whose steps left to cut stay those of the preparation, through holds and replans |
| StPrepBuffer.LoadStepData | firmware/grbl_port/common_src/stepper.c:742-771 | taking up a new block gives preparation and machine the same whole count to cut |
| StPrepBuffer.PrepHoldSegment | firmware/grbl_port/common_src/stepper.c:945-1034 | during a hold no step of the block is lost, however it ends; the block is left no faster than planned; a hold that stops inside it leaves an optimal plan from standstill and the block to be taken up again at rest; one whose block ends first leaves the next to be taken up new |
| Motion.Motion.constructor | firmware/grbl_port/common_src/stepper.c:580-592 | after a reset, at any motor position and direction setting, planner, preparation and machine are linked and the planner is synchronised |
| Motion.Motion.PlanLine | firmware/grbl_port/common_src/planner.c:258-431 | a planned line is one more block of the planner and one more job of the machine, between any two passes |
| Motion.Motion.EnterHold | firmware/grbl_port/common_src/protocol.c:258-264 | a hold may begin between any two passes |
| Motion.Motion.Resume | firmware/grbl_port/common_src/protocol.c:305-331 | and be resumed once it has come to rest |
| Motion.Motion.TimerTick | firmware/grbl_port/common_src/stepper.c:405-494 | the interrupt changes nothing the planner or the preparation rely on, at any moment |
| Motion.Motion.PrepPass | firmware/grbl_port/common_src/stepper.c:730-1038 | one pass of the preparation loop, in operation or in a hold, on a block new, partly cut or in progress: planner, preparation and machine stay linked, the profile in force in operation is the fastest to the planned exit, and the machine takes up a block or cuts a segment as it may |
| Motion.Motion.StPrepBuffer | firmware/grbl_port/common_src/stepper.c:724-1038 | the whole loop only adds segments behind those queued, and stops only with the ring full, nothing queued, or a hold at rest |
| Motion.Motion.StandstillReadsBack | firmware/grbl_port/common_src/planner.c:435-450 | when everything planned through holds and resumes has been executed, the motors have gone the way of the lines, and reading them back gives the planner's position exactly as `CoreXY.SyncAfterMove` says |
| Bresenham.Increment | firmware/grbl_port/common_src/stepper.c:431-433 | the shifted increment is exact: no bit of the step count is lost at any smoothing level |
| Bresenham.BlockExact | firmware/grbl_port/common_src/stepper.c:451-484 | for any split of a block into segments at any smoothing levels, each axis pulses exactly its step count and its counter ends where it started |
| Bresenham.NearIdealLine | firmware/grbl_port/common_src/stepper.c:451-484 | at every tick the pulses are within half a step of the straight line |
| Bresenham.SmoothingInvisible | firmware/grbl_port/common_src/stepper.c:756-763 | at every whole step any mix of levels agrees with level zero throughout |
| Bresenham.AgainstUnscaled | firmware/grbl_port/common_src/stepper.c:750-763 | against the build without smoothing, exactly when the two have pulsed equally often: all but the odd counts whose unscaled counter is just full |
| StepperMachine.PlanExact | firmware/grbl_port/common_src/planner.c:282-330 | the motor steps and directions planned for a move are exactly the motor displacement between the two positions, in as many events as the busiest motor has steps |
| StepperMachine.SegmentDataIntact | firmware/grbl_port/common_src/stepper.c:61-76 | every queued or executing segment's block index still names the data of the block it was cut from |
| StepperMachine.FreshExactlyOncePerBlock | firmware/grbl_port/common_src/stepper.c:414-422 | the interrupt sees a changed block index exactly at the first segment of each block, so counters are initialised once per block |
| StepperMachine.TickWorks | firmware/grbl_port/common_src/stepper.c:405-494 | every interrupt with a segment queued does exactly one of the ticks there are, the one that takes the segment up included |
| StepperMachine.BlockRunOut | firmware/grbl_port/common_src/stepper.c:489-494 | when the next block starts, the one before it has pulsed exactly its step counts |
| StepperMachine.ApplyInv | firmware/grbl_port/common_src/stepper.c:722-1038 | every interleaving of planning, preparation, segment loading and ticks keeps the rings, the counters and the accounting consistent |
| StepperMachine.RunInv | firmware/grbl_port/common_src/stepper.c:722-1038 | the same over whole runs, from a reset at any motor position and direction setting |
| StepperMachine.PositionConserved | firmware/grbl_port/common_src/planner.c:422-427 | at every moment the way the motors have gone since the last synchronisation plus the signed steps still owed is the way the planner has moved, through the CoreXY map, for all direction settings |
| StepperMachine.RunEndsInPlace | firmware/grbl_port/common_src/planner.c:435-450 | after any run in which everything queued has been executed, from any reset, the motors have gone the way the planner moved; synchronising gives back each axis of the planner position exactly as `CoreXY.SyncAfterMove` says |
| StepperMachine.DrainedInPlace | firmware/grbl_port/common_src/planner.c:435-450 | a drained machine has gone exactly the way the planner moved |
| StepperMachine.DrainedReadsBack | firmware/grbl_port/common_src/planner.c:435-450 | and synchronising gives back each axis exactly as `CoreXY.SyncAfterMove` says |
| StepperDriver.StepperDriver.TakeUpPlannerBlock | firmware/grbl_port/common_src/stepper.c:742-763 | the data ring is written one slot ahead, as the specification machine takes a block up |
| StepperDriver.StepperDriver.CommitSegment | firmware/grbl_port/common_src/stepper.c:1005-1007 | the segment ring is filled and its head advanced, as the specification machine cuts a segment |
| StepperDriver.StepperDriver.MainTimerIsr | firmware/grbl_port/common_src/stepper.c:405-494 | one interrupt is one tick of the specification machine; a cycle stop is flagged exactly when there is nothing to execute |
| StepperDriver.StepperDriver.LoadSegment | firmware/grbl_port/common_src/stepper.c:413-434 | loading a segment initialises the counters only on a changed block index |
| StepperDriver.StepperDriver.StepAxis | firmware/grbl_port/common_src/stepper.c:452-462 | one axis of one tick: counter, pulse and signed position |
| StepperDriver.StepperDriver.HasRoom | firmware/grbl_port/common_src/stepper.c:730 | there is room exactly when one segment slot beyond the head is free |
| CoreXY.SyncInvertsToMotors | firmware/grbl_port/common_src/planner.c:435-450 | reading back motor steps that come from an axis position gives it back, for all direction settings; an inverted Z exactly when it is zero |
| CoreXY.SyncLossless | firmware/grbl_port/common_src/system.c:381-394 | synchronising loses nothing exactly when the motor sum is even and Z is not inverted, or zero |
| CoreXY.SyncAfterMove | firmware/grbl_port/common_src/planner.c:435-450 | reading the motors back after moves that started from a synchronised position gives the planner's X, Y and Z each exactly if: the motor sum, or difference, at the start was even, or the rounding of an odd one falls the same way; Z is not inverted, or has come back to where it started |
| CoreXY.MotorSumEven | firmware/grbl_port/common_src/planner.c:291-294 | planned moves keep the motor sum even |
| CoreXY.System.SetHomedAxis | firmware/grbl_port/common_src/limits.c:473-484 | homing X or Y sets that axis and leaves the other's converted position as it was |
| CoreXY.System.ZeroApproachedAxis | firmware/grbl_port/common_src/limits.c:341-353 | before pulling off, the homed axis is zeroed and the other kept |
| FlashOps.RestorePrefix | firmware/grbl_port/stm32/f4/nucleo-f401re/flash.c:306-320 | restoring the first words programs exactly those bytes of the main sector with the copy's |
| FlashOps.RecoveryPrefix | firmware/grbl_port/stm32/f4/nucleo-f401re/flash.c:323-348 | a recovery cut off anywhere leaves a state recovery can complete; a complete one ends cleared with the new image |
| FlashOps.OtherRecovery | firmware/grbl_port/stm32/f4/nucleo-f401re/flash.c:335-347 | recovery from a restored status keeps the image and clears the journal; from a status that is none of the four it erases both sectors |
| FlashOps.CrashesKeepJournal | firmware/grbl_port/stm32/f4/nucleo-f401re/flash.c:323-348 | any number of interrupted recoveries stays recoverable |
| FlashOps.Marked | firmware/grbl_port/common_src/settings.c:82-84 | the status word can be turned to copied by clearing bits only |
| FlashOps.UpdateAtomic | firmware/grbl_port/common_src/settings.c:71-86 | an erase-and-copy update from a cleared status, interrupted at any operation and then in recovery any number of times, ends in exactly the old or the new image, decided by the mark; recovery is idempotent |
| FlashStore.Eflash.FlashProgram | firmware/grbl_port/stm32/f4/nucleo-f401re/flash.c:51-92 | programming a byte or a word clears bits only, nowhere else |
| FlashStore.Eflash.DeleteSector | firmware/grbl_port/stm32/f4/nucleo-f401re/flash.c:273-287 | an erase sets every byte of one sector |
| FlashStore.Eflash.FlashVerifyEraseNeed | firmware/grbl_port/stm32/f4/nucleo-f401re/flash.c:148-186 | an erase is wanted exactly when some data bit, or some bit of the checksum computed over the old data, would have to be set |
| FlashStore.Eflash.MemcpyToFlashWithChecksum | firmware/grbl_port/stm32/f4/nucleo-f401re/flash.c:221-231 | issues the data bytes in order and then their checksum |
| FlashStore.Eflash.MemcpyFromFlashWithChecksum | firmware/grbl_port/stm32/f4/nucleo-f401re/flash.c:244-254 | returns the stored bytes and whether the byte after them is their checksum, which it is not after any one byte of an intact record has changed |
| FlashStore.ChecksumTells | firmware/grbl_port/stm32/f4/nucleo-f401re/flash.c:224-229 | changing any one byte of the data, of any length, changes the checksum |
| FlashStore.ChecksumOfOne | firmware/grbl_port/stm32/f4/nucleo-f401re/flash.c:224-229 | a byte among zeros is turned left once for every byte after it |
| FlashStore.DamageFound | firmware/grbl_port/stm32/f4/nucleo-f401re/flash.c:244-254 | a record with exactly one byte changed, of its data or its checksum, is not intact |
| FlashStore.Eflash.CopyFromMainToCopy | firmware/grbl_port/stm32/f4/nucleo-f401re/flash.c:289-304 | issues the words of a range in order and leaves the main sector alone |
| FlashStore.Eflash.RestoreMainSector | firmware/grbl_port/stm32/f4/nucleo-f401re/flash.c:306-320 | issues every word of the restored range in order |
| FlashStore.Eflash.RestoreDefaultSectorStatus | firmware/grbl_port/stm32/f4/nucleo-f401re/flash.c:323-348 | issues exactly the recovery the status word calls for, falling through the cases |
| FlashStore.Eflash.SettingsWriteCoordData | firmware/grbl_port/common_src/settings.c:61-87 | issues the direct or the erase-and-copy operations, as the check decides |
| FlashStore.Eflash.SettingsReadCoordData | firmware/grbl_port/common_src/settings.c:288-298 | returns an intact record unchanged; otherwise zeroes, which it also writes |
| FlashStore.Eflash.WriteGlobalSettings | firmware/grbl_port/common_src/settings.c:32-57 | issues version, settings and checksum directly or through the copy sector |
| FlashEffects.CoordBuilt | firmware/grbl_port/common_src/settings.c:73-80 | the copy sector built for a coordinate update is the old image with the record replaced and its padding erased |
| FlashEffects.CoordUpdateAtomic | firmware/grbl_port/common_src/settings.c:71-86 | old or new coordinate image whatever power does, for every record, data and interruption |
| FlashEffects.CoordReadAfterWrite | firmware/grbl_port/common_src/settings.c:61-87 | the data stored are the data written and nothing outside the record's slot changes below the status word; exactly when the record is intact afterwards |
| FlashEffects.CoordReadsBack | firmware/grbl_port/common_src/settings.c:61-87 | from an intact or erased record, both branches leave a record that reads back as written |
| FlashEffects.CoordKeepsOthers | firmware/grbl_port/common_src/settings.c:61-87 | writing a coordinate record keeps every other one, intact or not, and the settings |
| FlashEffects.GlobalKeepsCoords | firmware/grbl_port/common_src/settings.c:32-57 | writing the settings keeps every coordinate record |
| FlashEffects.WornChecksumStays | firmware/grbl_port/stm32/f4/nucleo-f401re/flash.c:178-183 | a record with a worn checksum byte rewritten with its own data still does not read back: the stored checksum is not looked at |
| FlashEffects.ErasedStatusUnprotected | firmware/grbl_port/stm32/f4/nucleo-f401re/flash.c:329-336 | before the first complete recovery an interruption keeps the old image exactly when the half-built copy clears none of its bits |
| FlashErased.ErasedOutcome | firmware/grbl_port/common_src/settings.c:32-86 | from an erased status, what an update of coordinates or settings leaves that is interrupted anywhere, in recovery too: the old image with the part of the record already in the copy merged into it, or the new image once the copy is marked |
| FlashErased.ErasedUpdateAtomic | firmware/grbl_port/common_src/settings.c:32-86 | from an erased status and an empty copy sector, every interruption ends in the old or the new image exactly when what is written clears no bit of what is stored, or changes one programmable byte and nothing else |
| FlashErased.CoordErasedAtomic | firmware/grbl_port/common_src/settings.c:71-86 | the same condition for an update of a coordinate record that erases |
| FlashErased.CoordErasedLoses | firmware/grbl_port/common_src/settings.c:71-86 | a record for which it does not hold, and an interruption that loses both |
| FlashErased.GlobalErasedAtomic | firmware/grbl_port/common_src/settings.c:44-55 | and for an update of the settings that erases |
| FlashErased.GlobalErasedLoses | firmware/grbl_port/common_src/settings.c:44-55 | settings for which it does not hold, and an interruption that loses both |
| FlashEffects.GlobalReadAfterWrite | firmware/grbl_port/common_src/settings.c:32-57 | settings written through the copy sector read back; written directly, exactly when the bytes programmed over still fit |
| FlashEffects.GlobalInPlaceLoses | firmware/grbl_port/common_src/settings.c:34-41 | a direct write of bytes that passes the check and loses them, because the check looks at the sector base |
| FlashEffects.KeptSettingsReadBack | firmware/grbl_port/common_src/settings.c:32-57 | settings as the firmware keeps them, with a maximum travel of X kept negative over a stored acceleration of Z kept positive, or over a blank sector, read back whichever branch is taken |
| FlashEffects.GlobalUpdateAtomic | firmware/grbl_port/common_src/settings.c:44-55 | old or new settings image whatever power does |
| Protocol.Realtime.ExecutePass | firmware/grbl_port/common_src/protocol.c:190-371 | one pass does what the parts do in order, with a cycle stop forced by a door event on a complete hold |
| Protocol.Realtime.ProtocolExecuteRealtime | firmware/grbl_port/common_src/protocol.c:186-374 | passes repeat until nothing is suspended or a reset aborts, and not beyond |
| Protocol.DoorInterlock | firmware/grbl_port/common_src/protocol.c:280-296 | in every run without alarm, reset or soft limit, a cycle after a door event is preceded by a pass that saw the door closed with the hold complete and then by a cycle start no hold flag accompanied, the machine waiting in between |
| Protocol.DoorHistory | firmware/grbl_port/common_src/protocol.c:364-370 | after a door event the machine is locked, or waits with the release behind it, or has been released and then resumed |
| Protocol.AlwaysPoweredDown | firmware/grbl_port/common_src/protocol.c:338-347 | at the end of every pass of every run, a complete hold that owes power has spindle and coolant off |
| Protocol.ResumeRestoresPower | firmware/grbl_port/common_src/protocol.c:305-328 | the resume brings spindle and coolant back exactly as programmed when the machine was released, and starts the cycle if there is a block |
| Protocol.CycleEntry | firmware/grbl_port/common_src/protocol.c:299-331 | a pass starts a cycle exactly on a cycle start that no hold, alarm, reset or stop comes with, from rest or a complete hold that is not cancelled, with a block to execute |
| Protocol.CycleEnds | firmware/grbl_port/common_src/protocol.c:338-353 | a cycle that stops without a hold, or any motion a soft limit cuts short, leaves an idle machine that is not suspended, with spindle and coolant as they were |
| Protocol.HoldsIgnored | firmware/grbl_port/common_src/protocol.c:251-256 | hold flags do nothing in an alarm or in check mode |
| Protocol.IdleDoor | firmware/grbl_port/common_src/protocol.c:253-296 | a door opened on an idle machine powers spindle and coolant down in the same pass |
| Protocol.IdleHold | firmware/grbl_port/common_src/protocol.c:253-331 | a feed hold on an idle machine is complete at once, leaves spindle and coolant, and the next cycle start resumes |
| Protocol.HoldFromCycle | firmware/grbl_port/common_src/protocol.c:258-292 | in a cycle any hold flag replans the executing block and suspends, in the state its priority gives |
| GcodeWords.OrderImmaterial | firmware/grbl_port/common_src/gcode.c:83-90 | any permutation of a line's words is accepted or refused with it, and gives the same block |
| GcodeWords.AcceptedIffConsistent | firmware/grbl_port/common_src/gcode.c:143-362 | words are accepted exactly when each is legal and every two are compatible: one command per modal group, one axis command, one word per value letter |
| GcodeWords.BlockReflectsWords | firmware/grbl_port/common_src/gcode.c:115-362 | an accepted block holds every word's mode, value and axis command, and for what no word names, what it started with |
| GcodeLine.ImportLine | firmware/grbl_port/common_src/gcode.c:112-126 | the character loop parses letter and number to the end of the line, and stops at the first fault |
| GcodeLine.ParseIsImport | firmware/grbl_port/common_src/gcode.c:112-126 | a line made of word texts parses as those words |
| GcodeLine.AcceptedIffWords | firmware/grbl_port/common_src/gcode.c:112-362 | a line is accepted exactly when it is made of words, each legal and every two compatible |
| GcodeLine.LineOrderImmaterial | firmware/grbl_port/common_src/gcode.c:83-90 | permuting the word texts of a line changes neither acceptance nor the block |
| Gcode.Interpreter.GcExecuteLine | firmware/grbl_port/common_src/gcode.c:74-1073 | one line: import, checks, execution, and what it asks of motion control; what the words of the line mean is said in the rows of GcodeMeaning |
| Gcode.Interpreter.ExecuteBlock | firmware/grbl_port/common_src/gcode.c:832-1073 | the field updates in their order amount to the specified new state, coordinate records, motions and fault |
| Gcode.FaultKeepsState | firmware/grbl_port/common_src/gcode.c:370-376 | a line at fault leaves the interpreter's state as it was, except exactly a program end, not in check mode, whose default coordinate system does not read back |
| Gcode.FaultKeepsRecords | firmware/grbl_port/common_src/gcode.c:519-555 | a line at fault leaves the coordinate records as they were, except that one it could not read has become zeroes |
| Gcode.RunOrderImmaterial | firmware/grbl_port/common_src/gcode.c:83-90 | running a line with its words permuted gives the same state and records |
| Gcode.SetPointThenMove | firmware/grbl_port/common_src/gcode.c:557-613 | after G92, or G10 L20 on the active system, an absolute move to the values just set goes nowhere, for every position, offset, tool length, unit and axis set, except exactly when the setting line also ends the program and takes up a default system that differs on the axes moved |
| Gcode.HomeReturns | firmware/grbl_port/common_src/gcode.c:616-631 | G28 and G30 return to the position G28.1 and G30.1 recorded, from any later state, over any store that still has the record |
| GcodeCases.ProgramEndFaults | firmware/grbl_port/common_src/gcode.c:1043-1063 | M2 over an unreadable first record reports a fault and changes the state |
| GcodeMeaning.CommandsMean | firmware/grbl_port/common_src/gcode.c:145-300 | every command word the parser accepts selects the mode its number names, and claims the axis words if it is one that does |
| GcodeMeaning.LegalExactly | firmware/grbl_port/common_src/gcode.c:145-300 | the command words accepted are exactly those that name a mode, and G40, G61, G91.1 and M1 |
| GcodeMeaning.LegalValues | firmware/grbl_port/common_src/gcode.c:335-361 | the value words accepted are those of thirteen letters, of which F, N, P, S and T take no negative number |
| GcodeMeaning.ModesMean | firmware/grbl_port/common_src/gcode.c:145-300 | in every modal group a line's block has the mode its word names, or the one in force before |
| GcodeMeaning.ValuesMean | firmware/grbl_port/common_src/gcode.c:335-361 | a line's block has the value of each value word, and zero for a letter without one |
| GcodeMeaning.StraightMove | firmware/grbl_port/common_src/gcode.c:588-614 | an accepted line that moves straight ends with every axis at its goal: in the units, distance mode, coordinate system, offset and tool length that the line's words and the state before give, in machine coordinates after G53; axes without a word stay |
| GcodeMeaning.ArcDrawn | firmware/grbl_port/common_src/gcode.c:672-806 | an arc is asked for in the plane its words give, clockwise exactly for G2, to its goal, about the centre at its offsets or at its radius from both ends |
| GcodeMeaning.ProbeMeans | firmware/grbl_port/common_src/gcode.c:991-1018 | a probing line asks for the probe to its goal, as its number says, and ends where the probe stopped |
| GcodeMeaning.ModesInForce | firmware/grbl_port/common_src/gcode.c:838-917 | an accepted line that does not end the program leaves in force the motion, plane, distance, feed and unit modes, coordinate system, spindle and coolant that its words name |
| GcodeMeaning.ProgramEnd | firmware/grbl_port/common_src/gcode.c:1043-1063 | a program end leaves straight moves, the XY plane, absolute distances, units per minute, the first coordinate system, spindle and coolant off, and the units as they are |
| GcodeMeaning.RatesMean | firmware/grbl_port/common_src/gcode.c:433-457 | the feed rate and the spindle speed after a line are those of its F and S words, the feed in millimetres except in inverse time and when leaving it, or those before |
| GcodeMeaning.LineNumberMeans | firmware/grbl_port/common_src/gcode.c:341 | the line number is the N word without its fraction, or zero |
| GcodeMeaning.SystemInForce | firmware/grbl_port/common_src/gcode.c:519-525 | G54 to G59 take up the record of their number |
| GcodeMeaning.HomesMean | firmware/grbl_port/common_src/gcode.c:923-939 | G28 and G30 go to their record's position, by way of the point programmed, if any |
| GcodeMeaning.HomesRecorded | firmware/grbl_port/common_src/gcode.c:940-945 | G28.1 and G30.1 record the present position, and no line but those and G10 writes a record |
| GcodeMeaning.OffsetsMean | firmware/grbl_port/common_src/gcode.c:572-588 | after G92 the present position reads as programmed; G92.1 clears the offsets and nothing else changes them |
| GcodeMeaning.RecordsMean | firmware/grbl_port/common_src/gcode.c:537-571 | G10 rewrites exactly the record it names, to the values of the line or so that the present position reads as them |
| GcodeMeaning.ToolLengthMeans | firmware/grbl_port/common_src/gcode.c:889-900 | G43.1 takes the tool length from Z, G49 clears it, and nothing else changes it |
| GcodeMeaning.EndsProgram | firmware/grbl_port/common_src/gcode.c:280-287 | a line ends the program exactly if it has an M2 or M30 word, or the program flow was left completed and it has no M0 either |
| GcodeMeaning.UnitsOfALine | firmware/grbl_port/common_src/gcode.c:487-496 | X1 goes to 1 millimetre after G21 and to 25.4 after G20 |
| GcodeChecks.AcceptedExactly | firmware/grbl_port/common_src/gcode.c:412-830 | a block passes the checks exactly if everything it asks for is possible and every word of it is used, whatever the order of the checks |
| GcodeChecks.LineExecuted | firmware/grbl_port/common_src/gcode.c:412-830 | and so does a line that parses; only a program end can then be at fault |
| GcodeCases.NextLineEnds | firmware/grbl_port/common_src/gcode.c:1035-1068 | after such a fault the line N1 ends the program |
| GcodeCases.RapidsNeedFeed | firmware/grbl_port/common_src/gcode.c:419-426 | in inverse time a line with rapid or no motion is refused for want of F exactly if it has axis words or names its motion |
| GcodeCases.RapidRefused | firmware/grbl_port/common_src/gcode.c:419-426 | a rapid in inverse time without F is refused, from every state |
| GcodeCases.FeedIsInMm | firmware/grbl_port/common_src/gcode.c:438-447 | the F word of an accepted line becomes the feed rate in millimetres per minute except exactly in inches on a line that leaves inverse time |
| GcodeCases.InchesTakenAsMm | firmware/grbl_port/common_src/gcode.c:438-447 | such a line |
| GcodeCases.CoordinateDataWords | firmware/grbl_port/common_src/gcode.c:537-543 | a G10 line that reaches its checks is refused for a missing word exactly if it has neither P nor L |
| GcodeCases.MissingPAccepted | firmware/grbl_port/common_src/gcode.c:537-543 | a G10 line without P is accepted |
| GcodeCases.RadiusArcWithoutChord | firmware/grbl_port/common_src/gcode.c:687-697 | an arc given by its radius and without a chord in its plane passes the checks exactly if it moves along the third axis |
| GcodeCases.ArcWithoutChordAccepted | firmware/grbl_port/common_src/gcode.c:687-753 | such a line |
| Numbers.ReadFloat | firmware/grbl_port/common_src/nuts_bolts.c:36-109 | the reader returns the number at the counter and the position after it, or fails without a digit |
| Numbers.ReadsDecimal | firmware/grbl_port/common_src/nuts_bolts.c:36-109 | any number of digits, with or without a sign, a point and decimals, reads as its first eight digits at their place, and with no more than eight as itself |
| Numbers.PrintFloat | firmware/grbl_port/common_src/print.c:137-173 | the printer writes sign, integer part, point and decimals of the rounded number |
| Numbers.PrintedReadsBack | firmware/grbl_port/common_src/nuts_bolts.c:36-109 | a printed number of at most eight digits and seven decimals reads back as the rounded number, consuming exactly its characters, anywhere in a line |
| Numbers.RoundedClose | firmware/grbl_port/common_src/print.c:149-150 | printing rounds to within half a unit of the last decimal |
| Arc.RotationScales | firmware/grbl_port/common_src/motion_control.c:165-168 | a rotation-shaped matrix scales every squared radius by the same factor |
| Arc.ExactSixthFactor | firmware/grbl_port/common_src/motion_control.c:148-152 | with an exact sixth the factor is 1 - theta^4/12 + theta^6/36 |
| Arc.NotLengthened | firmware/grbl_port/common_src/motion_control.c:151 | with the constant as written, a rotation does not lengthen the radius exactly when theta is zero or not tiny |
| Arc.TinyAnglesLengthen | firmware/grbl_port/common_src/motion_control.c:151 | half a thousandth of a radian is tiny, a thousandth is not |
| Arc.RotationScalesBy | firmware/grbl_port/common_src/motion_control.c:165-168 | the sum of the matrix's squares is the only factor by which such a matrix scales every squared length |
| Arc.DriftBound | firmware/grbl_port/common_src/motion_control.c:121-141 | up to twelve rotations scale the squared radius by at least 1 - theta^4 and at most about a millionth of theta^2 over one |
| Arc.ExactDriftBound | firmware/grbl_port/common_src/motion_control.c:121-152 | with an exact sixth the squared radius stays between 1 - theta^4 and one |
| Arc.DrawPoints | firmware/grbl_port/common_src/motion_control.c:160-194 | the i-th point is at its share of the linear travel and, in the plane, the start's radius vector turned once for every point since the last exact rotation, every thirteenth exactly rotated; an abort stops after the line that reported it |
| Arc.NextRadius | firmware/grbl_port/common_src/motion_control.c:162-177 | the i-th radius vector from the one before, exact after every twelve approximations |
| Arc.RadiusLength | firmware/grbl_port/common_src/motion_control.c:165-177 | the squared radius of the i-th point is the start's, scaled once for every approximation since the last exact rotation |
| Arc.FollowsRotation | firmware/grbl_port/common_src/motion_control.c:121-152 | every point is within 12.12 times the error of one turn, in radii, of where exact rotations put it, in direction as well as length |
| Arc.NearExact | firmware/grbl_port/common_src/motion_control.c:121-152 | the error of the vector grows from point to point at most as each turn's error and lengthening add up |
| Arc.TurnError | firmware/grbl_port/common_src/motion_control.c:148-152 | the error of one turn is at most the terms of cosine and sine left out and the excess of the constant over a sixth |
| Arc.ArcStaysNear | firmware/grbl_port/common_src/motion_control.c:179-182 | every point of an arc is as near the circle as the powers of its rotation's factor are to one |
| Arc.McArc | firmware/grbl_port/common_src/motion_control.c:87-200 | without an abort the arc is its points and then a line to the target itself; for turns of at most a radian every point is near the circle, and within 12.12 times the error of one turn of the start turned by its share of the travel; in inverse time every line gets its share |
| Arc.TravelTurns | firmware/grbl_port/common_src/motion_control.c:100-106 | the travel of an arc turns the way asked for, by at most a whole turn and the angle too small to tell, and ends where its target does; an arc back to its start is a whole turn |
| Arc.RadiusModeCentre | firmware/grbl_port/common_src/gcode.c:748-782 | the centre computed from a radius is at that radius from both ends of a chord that is not zero, on the side that makes a clockwise arc, or the other, the shorter one, and the longer one for a negative radius |

## Left out

- Float rounding, NaN and overflow of 32-bit counters: the planner, profile and arc results are about reals, the step results about unbounded counts.
- LineBlock.LimitRates: requires positive steps per millimetre; the code refuses only negative settings, and divides by zero for a setting of zero.
- LineBlock.LinePlanner.PlanBufferLine: requires positive rates and accelerations; with one of zero the code queues a block that never moves, which no plan can execute.
- FlashErased.ErasedUpdateAtomic: requires an empty copy sector, as the firmware leaves it whenever the status word is erased between updates; what other contents would do after one interruption is `FlashEffects.ErasedStatusUnprotected`.
- LineBlock.Measure: takes a line that has steps; of one without, the code computes no more than its length.
- Homing moves, probing, jogging, dwell, spindle speed and coolant hardware: position conservation is stated outside homing and resets, and the door property keeps only whether spindle and coolant run.
- `settings_store_startup_line` and `settings_store_build_info`: their erase branches copy ranges that overlap or overrun the record, so reading back does not hold there.
- The direct branch of a coordinate write is not atomic and is not claimed to be: it writes without a journal.
- Protocol.DoorInterlock: excludes alarms, resets and soft limits, which leave the door state by design.
- Arc.McArc: the nearness clause is for segments that turn by at most one radian; the others hold for all.
- Canned replies, reports, serial buffers, system commands, the character filter in front of the parser, and dwells and spindle and coolant calls of an executed block, beyond the modes they leave.
- The bounded wait for the segment buffer to drain before a block is discarded, pulse timing, pin masks and interrupt controllers.
- Builds without CoreXY or without smoothing, except for the comparison in `Bresenham.AgainstUnscaled`.
