/** The segment buffer loop over planner and preparation state: what it keeps from one pass to the
    next, in normal operation and through a feed hold. */
module StPrepBuffer {
  import opened Planner
  import opened SegmentPrep
  import opened SpeedPlan
  import opened VelocityProfile
  import M = StepperMachine
  import D = StepperDriver

  /** Nonnegative square roots of the squared speeds a profile is computed from. */
  datatype Roots = Roots(entry: real, exit: real, nominal: real, peak: real)

  ghost predicate RootsOf(r: Roots, b: PlanBlock, exitSpeedSqr: real)
    requires b.acceleration > 0.0
  {
    && r.entry >= 0.0 && Square(r.entry) == b.entrySpeedSqr
    && r.exit >= 0.0 && Square(r.exit) == exitSpeedSqr
    && r.nominal >= 0.0 && Square(r.nominal) == b.nominalSpeedSqr
    && r.peak >= 0.0
    && Square(r.peak) == Gain(b.acceleration, Intersect(b.entrySpeedSqr, exitSpeedSqr, b.acceleration, b.millimeters)) + exitSpeedSqr
  }

  /** The preparation state is about the planner's tail block as it stands. */
  ghost predicate SameBlock(planner: Planner, prep: Prep)
    reads planner, prep
  {
    && |planner.queue| > 0
    && prep.millimeters == planner.queue[0].millimeters
    && prep.acceleration == planner.queue[0].acceleration
    && prep.nominalSpeedSqr == planner.queue[0].nominalSpeedSqr
  }

  /** Planner and stepper agree on the executing block, its speed and its exit speed. */
  ghost predicate InStep(planner: Planner, prep: Prep)
    reads planner, planner.blockBuffer, prep
  {
    && planner.Valid() && planner.executing && prep.Valid() && SameBlock(planner, prep)
    && prep.currentSpeed == planner.currentSpeed && prep.profile.exitSpeed == planner.exitSpeed
  }

  /** The profile for normal operation. */
  method TakeNormalProfile(prep: Prep, b: PlanBlock, roots: Roots)
    requires prep.Accounted() && prep.currentSpeed == roots.entry
    requires prep.millimeters == b.millimeters && prep.acceleration == b.acceleration && prep.nominalSpeedSqr == b.nominalSpeedSqr
    requires b.acceleration > 0.0 && RootsOf(roots, b, Square(roots.exit))
    requires Reachable(b.entrySpeedSqr, Square(roots.exit), b.nominalSpeedSqr, b.acceleration, b.millimeters)
    modifies prep`profile
    ensures prep.Valid() && prep.profile.exitSpeed == roots.exit && prep.profile.mmComplete == 0.0 && prep.AtFullSpeed()
  {
    var p := ComputeProfile(prep.profile, b.entrySpeedSqr, b.nominalSpeedSqr, b.acceleration, b.millimeters,
                            prep.currentSpeed, roots.exit, roots.nominal, roots.peak);
    prep.TakeProfile(p);
  }

  /** A block is taken up for the first time, or again after the planner changed its exit speed. */
  method TakeUpBlock(planner: Planner, prep: Prep, roots: Roots)
    requires planner.Valid() && planner.Optimal() && !planner.executing
    requires prep.Accounted() && SameBlock(planner, prep) && prep.currentSpeed == roots.entry
    requires BlockOk(planner.queue[0]) && RootsOf(roots, planner.queue[0], StoredExit(planner.queue, 0))
    modifies planner`executing, planner`partialBlock, planner`currentSpeed, planner`exitSpeed, prep`profile
    ensures InStep(planner, prep) && planner.Optimal() && prep.profile.mmComplete == 0.0 && prep.AtFullSpeed()
    ensures Square(prep.profile.exitSpeed) == StoredExit(planner.queue, 0)
  {
    planner.LoadBlock(roots.entry, roots.exit);
    TakeNormalProfile(prep, planner.blockBuffer[planner.blockBufferTail], roots);
  }

  /** A feed hold is decelerating the block that planner and stepper agree on. */
  ghost predicate InHold(planner: Planner, prep: Prep)
    reads planner, planner.blockBuffer, prep
  {
    InStep(planner, prep) && planner.Slowing() && prep.profile.rampType == RampDecel
  }

  /** A block is taken up while a feed hold is decelerating: a new one at the exit speed the hold has
      reached, a partly cut one at its present speed. The speed is within the block's own limit: a forced
      deceleration leaves no block faster than planned. */
  method TakeUpBlockInHold(planner: Planner, prep: Prep, exitRoot: real)
    requires planner.Valid() && planner.Slowing() && !planner.executing
    requires prep.Accounted() && SameBlock(planner, prep)
    requires prep.currentSpeed == if planner.partialBlock then planner.currentSpeed else planner.exitSpeed
    requires exitRoot >= 0.0 && (Square(prep.currentSpeed) >= Gain(prep.acceleration, prep.millimeters) ==>
      Square(exitRoot) == Square(prep.currentSpeed) - Gain(prep.acceleration, prep.millimeters))
    modifies planner, planner.blockBuffer, prep`profile
    ensures InHold(planner, prep) && Square(prep.currentSpeed) <= prep.nominalSpeedSqr && |planner.queue| == |old(planner.queue)|
    ensures prep.profile.mmComplete > 0.0 <==> Square(prep.currentSpeed) < Gain(prep.acceleration, prep.millimeters)
  {
    hide StoppablePlan, BlocksOk;
    TailOk(planner.queue);
    var p := ComputeHoldProfile(prep.profile, prep.currentSpeed * prep.currentSpeed, prep.acceleration, prep.millimeters, prep.currentSpeed, exitRoot);
    HoldExit(p, prep.acceleration, prep.millimeters, prep.currentSpeed);
    prep.TakeProfile(p);
    planner.HoldLoadBlock(p.exitSpeed);
  }

  lemma HoldExit(p: Profile, a: real, mm: real, speed: real)
    requires p.rampType == RampDecel && Coherent(p, a, mm, speed)
    ensures Square(p.exitSpeed) == 0.0 || Square(p.exitSpeed) == Square(speed) - Gain(a, mm)
  {
    GainMonotone(a, 0.0, mm);
  }

  /** Short of the end of the hold the machine is moving. */
  lemma StillMoving(p: Profile, a: real, mm: real, speed: real)
    requires p.rampType == RampDecel && Coherent(p, a, mm, speed) && p.mmComplete < mm
    ensures speed > 0.0
  {
    GainMonotone(a, mm, p.mmComplete);
    SquareMonotone(0.0, p.exitSpeed);
  }

  /** Preparation and step generator agree on the block being cut: its steps not yet in segments are the ones
      the machine has left to cut. */
  ghost predicate Cutting(prep: Prep, driver: D.StepperDriver)
    reads prep, driver, driver.segmentBuffer, driver.stBlockBuffer
  {
    driver.Valid() && driver.m.cutting && driver.m.stepsLeft == prep.stepEventCount - prep.emitted
  }

  /** The segment is one the machine can cut, and it has been. */
  ghost predicate Commits(before: M.Machine, segment: Segment, after: M.Machine) {
    before.loaded > 0 && M.CanCut(before, segment.n, segment.amassLevel) && after == M.Cut(before, segment.n, segment.amassLevel)
  }

  /** One pass of the loop, down to the segment ring: whatever it prepares is a step of the machine. */
  method CutSegment(prep: Prep, driver: D.StepperDriver, hold: bool) returns (segment: seq<Segment>, outcome: Outcome)
    requires prep.Valid() && (!hold ==> prep.profile.mmComplete == 0.0)
    requires Cutting(prep, driver) && |driver.m.queue| < M.SEGMENT_BUFFER_SIZE - 1
    modifies prep, driver, driver.segmentBuffer
    ensures prep.Prepared(old(prep.emitted), old(prep.millimeters), old(prep.currentSpeed), old(prep.profile), old(prep.dtRemainder), hold, segment, outcome)
    ensures prep.stepEventCount == old(prep.stepEventCount) && prep.acceleration == old(prep.acceleration) && prep.nominalSpeedSqr == old(prep.nominalSpeedSqr)
    ensures driver.Valid()
    ensures if segment == [] then driver.m == old(driver.m) else Commits(old(driver.m), segment[0], driver.m)
    ensures if outcome == BlockDone then !driver.m.cutting else Cutting(prep, driver)
  {
    assert driver.m.loaded > 0;
    hide M.Inv;
    segment, outcome := prep.PrepareSegment(hold);
    if segment != [] {
      driver.CommitSegment(segment[0].n, segment[0].amassLevel);
    }
  }

  /** A new block is taken up: its data go into the next slot of the data ring, and all its steps are to be cut. */
  method LoadStepData(driver: D.StepperDriver, job: M.Job, millimeters: real, nominalSpeedSqr: real, acceleration: real, speed: real)
    returns (prep: Prep)
    requires driver.Valid() && M.CanTakeUp(driver.m) && job == driver.m.jobs[driver.m.loaded] && millimeters > 0.0
    modifies driver, driver.stBlockBuffer
    ensures fresh(prep) && prep.Accounted() && Cutting(prep, driver) && driver.m == M.TakeUp(old(driver.m))
    ensures prep.currentSpeed == speed && prep.millimeters == millimeters
    ensures prep.nominalSpeedSqr == nominalSpeedSqr && prep.acceleration == acceleration
  {
    assert M.JobOk(job);
    hide M.Inv;
    driver.TakeUpPlannerBlock(job);
    prep := new Prep.LoadBlock(job.stepEventCount, millimeters, nominalSpeedSqr, acceleration, speed);
  }

  /** The state a pass in normal operation leaves: the same block in step with its plan, or past its end. */
  ghost predicate CycleOutcome(planner: Planner, prep: Prep, driver: D.StepperDriver, done: bool)
    reads planner, planner.blockBuffer, prep, driver, driver.segmentBuffer, driver.stBlockBuffer
  {
    && planner.Optimal()
    && if done then prep.emitted == prep.stepEventCount && !driver.m.cutting && !planner.executing && !planner.partialBlock
       else InStep(planner, prep) && prep.profile.mmComplete == 0.0 && prep.AtFullSpeed() && Cutting(prep, driver)
  }

  /** A segment in normal operation: the plan stays optimal, the exit speed the segment was cut for is still
      the planned one, and the segment is the machine's next. */
  method PrepSegment(planner: Planner, prep: Prep, driver: D.StepperDriver) returns (segment: Segment, done: bool)
    requires InStep(planner, prep) && planner.Optimal() && prep.profile.mmComplete == 0.0 && prep.AtFullSpeed()
    requires Cutting(prep, driver) && |driver.m.queue| < M.SEGMENT_BUFFER_SIZE - 1
    modifies planner, planner.blockBuffer, prep, driver, driver.segmentBuffer
    ensures planner.Valid() && driver.Valid() && CycleOutcome(planner, prep, driver, done) && segment.n >= 1
    ensures prep.Prepared(old(prep.emitted), old(prep.millimeters), old(prep.currentSpeed), old(prep.profile), old(prep.dtRemainder), false, [segment],
                          if done then BlockDone else MoreOfBlock)
    ensures prep.emitted == old(prep.emitted) + segment.n && prep.stepEventCount == old(prep.stepEventCount)
    ensures Commits(old(driver.m), segment, driver.m)
    ensures planner.queue == if done then old(planner.queue)[1..] else old(planner.queue)[0 := old(planner.queue)[0].(millimeters := prep.millimeters)]
  {
    hide M.Inv, BlocksOk, OptimalPlan, Commits, Planner.RingOk, D.StepperDriver.RingOk, Fastest, Prep.InPace;
    var segments, outcome := CutSegment(prep, driver, false);
    segment := segments[0];
    done := outcome == BlockDone;
    if done {
      planner.FinishBlock();
    } else {
      planner.Progress(prep.currentSpeed, prep.millimeters);
    }
  }

  /** The state a pass in a hold leaves: still decelerating in the block, past its end and ready to take up the
      next within its limits, or stopped inside it with an optimal plan from standstill. */
  ghost predicate HoldOutcome(planner: Planner, prep: Prep, driver: D.StepperDriver, outcome: Outcome)
    reads planner, planner.blockBuffer, prep, driver, driver.segmentBuffer, driver.stBlockBuffer
  {
    match outcome
    case MoreOfBlock => InHold(planner, prep) && Cutting(prep, driver) && prep.currentSpeed > 0.0
    case BlockDone =>
      && prep.emitted == prep.stepEventCount && !driver.m.cutting && prep.currentSpeed > 0.0
      && planner.Slowing() && !planner.executing && !planner.partialBlock
    case HoldStopped =>
      && planner.Optimal() && !planner.executing && planner.partialBlock && planner.SpeedSqr() == 0.0
      && prep.Accounted() && SameBlock(planner, prep) && Cutting(prep, driver) && prep.currentSpeed == planner.currentSpeed == 0.0
  }

  /** A segment during a feed hold. At the end of a block the speed reached is within the planned entry of
      the next. When the hold stops the machine inside the block, the plan is optimal again from standstill,
      and no step of the block is lost. */
  method PrepHoldSegment(planner: Planner, prep: Prep, driver: D.StepperDriver) returns (segment: seq<Segment>, outcome: Outcome)
    requires InHold(planner, prep) && Cutting(prep, driver) && |driver.m.queue| < M.SEGMENT_BUFFER_SIZE - 1
    modifies planner, planner.blockBuffer, prep, driver, driver.segmentBuffer
    ensures planner.Valid() && driver.Valid() && HoldOutcome(planner, prep, driver, outcome)
    ensures prep.emitted == old(prep.emitted) + (if segment == [] then 0 else segment[0].n) && prep.stepEventCount == old(prep.stepEventCount)
    ensures if segment == [] then driver.m == old(driver.m) else Commits(old(driver.m), segment[0], driver.m)
    ensures prep.Prepared(old(prep.emitted), old(prep.millimeters), old(prep.currentSpeed), old(prep.profile), old(prep.dtRemainder), true, segment, outcome)
    ensures |planner.queue| == if outcome == BlockDone then |old(planner.queue)| - 1 else |old(planner.queue)|
    ensures outcome == BlockDone ==>
      && planner.queue == old(planner.queue)[1..] && planner.exitSpeed == old(prep.profile.exitSpeed)
      && Square(planner.exitSpeed) <= old(StoredExit(planner.queue, 0))
  {
    hide M.Inv, StoppablePlan, BlocksOk, OptimalPlan, Commits, SpeedGain, ProgressOk, Planner.RingOk, D.StepperDriver.RingOk, StoredExit, Gain, Square;
    segment, outcome := CutSegment(prep, driver, true);
    match outcome {
      case MoreOfBlock =>
        StillMoving(prep.profile, prep.acceleration, prep.millimeters, prep.currentSpeed);
        planner.HoldProgress(prep.currentSpeed, prep.millimeters);
      case BlockDone =>
        StillMoving(old(prep.profile), prep.acceleration, old(prep.millimeters), prep.currentSpeed);
        planner.FinishBlock();
      case HoldStopped =>
        planner.HoldProgress(0.0, prep.millimeters);
        planner.PlanCycleReinitialize();
    }
  }
}
