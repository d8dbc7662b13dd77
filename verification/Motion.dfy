/** Planner, segment preparation and step generator as the main program runs them: one invariant for the
    state between any two of its steps, kept by planned lines, preparation passes, holds, resumes and ticks. */
module Motion {
  import opened CoreXY
  import opened LineBlock
  import opened Reals
  import opened Planner
  import opened SegmentPrep
  import opened SpeedPlan
  import opened StPrepBuffer
  import opened VelocityProfile
  import M = StepperMachine
  import D = StepperDriver

  /** The machine's jobs that are not wholly in segments yet, the one being cut first. */
  ghost function Pending(m: M.Machine): seq<M.Job>
    requires M.Shape(m)
  {
    m.jobs[if m.cutting then m.loaded - 1 else m.loaded..]
  }

  /** What only planning and resets change. */
  predicate SameFrame(m: M.Machine, n: M.Machine) {
    n.inv == m.inv && n.start == m.start && n.plannerPosition == m.plannerPosition
  }

  lemma PendingLine(m: M.Machine, target: Triple)
    requires M.Inv(m)
    ensures var n, j := M.PlanLine(m, target), M.Plan(m.inv, m.plannerPosition, target);
      && M.Shape(n) && Pending(n) == (if j.stepEventCount == 0 then Pending(m) else Pending(m) + [j])
      && n.cutting == m.cutting && n.stepsLeft == m.stepsLeft && n.inv == m.inv && n.start == m.start && n.plannerPosition == target
  {
    hide M.Plan, M.Ordered, M.Accounted, M.Located;
    M.PlanLineInv(m, target);
    M.PlanExact(m.inv, m.plannerPosition, target, 0);
    var k, j := if m.cutting then m.loaded - 1 else m.loaded, M.Plan(m.inv, m.plannerPosition, target);
    SliceMore(m.jobs, j, k);
  }

  lemma SliceMore<T>(s: seq<T>, x: T, k: nat)
    requires k <= |s|
    ensures (s + [x])[k..] == s[k..] + [x]
  {
  }

  lemma PendingTakeUp(m: M.Machine)
    requires M.Inv(m) && !m.cutting && Pending(m) != [] && |m.queue| < M.SEGMENT_BUFFER_SIZE - 1
    ensures M.CanTakeUp(m) && Pending(m)[0] == m.jobs[m.loaded]
    ensures var n := M.TakeUp(m);
      && M.Shape(n) && Pending(n) == Pending(m) && n.cutting && n.queue == m.queue && SameFrame(m, n)
  {
    hide M.Ordered, M.Accounted, M.Located;
    M.TakeUpInv(m);
  }

  /** The segment committed by a pass, if any. */
  ghost predicate CutOnce(m: M.Machine, n: M.Machine) {
    exists segment :: Commits(m, segment, n)
  }

  lemma PendingCut(m: M.Machine, segment: Segment, n: M.Machine)
    requires M.Inv(m) && Commits(m, segment, n)
    ensures M.Shape(n) && Pending(n) == (if n.cutting then Pending(m) else Pending(m)[1..])
    ensures |n.queue| == |m.queue| + 1 && SameFrame(m, n) && CutOnce(m, n)
  {
    hide M.Ordered, M.Accounted, M.Located;
    M.CutInv(m, segment.n, segment.amassLevel);
  }

  lemma TickKeeps(m: M.Machine)
    requires M.Inv(m)
    ensures var n := M.Tick(m);
      M.Shape(n) && Pending(n) == Pending(m) && n.cutting == m.cutting && n.stepsLeft == m.stepsLeft && SameFrame(m, n)
  {
    hide M.Ordered, M.Accounted, M.Located;
    M.ApplyInv(m, M.TimerTick);
  }

  /** The square root of a squared speed that a hold has left at the end of a block, if any is left. */
  function LeftRoot(root: real -> real, speed: real, gain: real): real {
    if Square(speed) >= gain then root(Square(speed) - gain) else 0.0
  }

  lemma LeftRootOk(root: real -> real, speed: real, gain: real)
    requires IsRoot(root)
    ensures LeftRoot(root, speed, gain) >= 0.0
    ensures Square(speed) >= gain ==> Square(LeftRoot(root, speed, gain)) == Square(speed) - gain
  {
    hide Square;
  }

  lemma ExitOk(q: seq<PlanBlock>, v: real, planned: nat)
    requires BlocksOk(q) && OptimalPlan(q, v, planned)
    ensures StoredExit(q, 0) >= 0.0
  {
    OptimalIsStoppable(q, v, planned);
    StoredExitOk(q);
  }

  /** The roots a profile is computed from, for a block entered at the given speed. */
  function RootsFor(root: real -> real, speed: real, b: PlanBlock, exitSpeedSqr: real): Roots
    requires b.acceleration > 0.0
  {
    Roots(speed, root(exitSpeedSqr), root(b.nominalSpeedSqr),
          root(Gain(b.acceleration, Intersect(b.entrySpeedSqr, exitSpeedSqr, b.acceleration, b.millimeters)) + exitSpeedSqr))
  }

  lemma RootsForOk(root: real -> real, speed: real, b: PlanBlock, exitSpeedSqr: real)
    requires IsRoot(root) && BlockOk(b) && speed >= 0.0 && Square(speed) == b.entrySpeedSqr && exitSpeedSqr >= 0.0
    ensures RootsOf(RootsFor(root, speed, b, exitSpeedSqr), b, exitSpeedSqr)
  {
    IntersectGain(b.entrySpeedSqr, exitSpeedSqr, b.acceleration, b.millimeters);
    GainMonotone(b.acceleration, 0.0, b.millimeters);
    SquareMonotone(0.0, speed);
    assert b.entrySpeedSqr >= 0.0;
    hide Gain, Intersect, Square;
    assert Gain(b.acceleration, Intersect(b.entrySpeedSqr, exitSpeedSqr, b.acceleration, b.millimeters)) + exitSpeedSqr >= 0.0;
  }

  lemma CutGrows(m: M.Machine, n: M.Machine)
    requires CutOnce(m, n)
    ensures |n.queue| > |m.queue|
  {
  }

  /** What one pass does in the machine: it may take up a block, and then cut a segment. */
  ghost predicate PassOf(m: M.Machine, n: M.Machine)
    requires M.Inv(m)
  {
    n == m || CutOnce(m, n) || (M.CanTakeUp(m) && (n == M.TakeUp(m) || CutOnce(M.TakeUp(m), n)))
  }

  /** Preparation alone: segments are added behind those in the ring, and nothing else that planning, resets or
      the interrupt change. */
  ghost predicate Extends(m: M.Machine, n: M.Machine) {
    SameFrame(m, n) && n.jobs == m.jobs && n.position == m.position && n.execJob == m.execJob && m.queue <= n.queue
  }

  lemma CutExtends(m: M.Machine, n: M.Machine)
    requires CutOnce(m, n)
    ensures Extends(m, n)
  {
  }

  lemma PassExtends(m: M.Machine, n: M.Machine)
    requires M.Inv(m) && PassOf(m, n)
    ensures Extends(m, n)
  {
    hide CutOnce, M.Accounted, M.Located;
    if CutOnce(m, n) {
      CutExtends(m, n);
    } else if n != m && CutOnce(M.TakeUp(m), n) {
      CutExtends(M.TakeUp(m), n);
    }
  }

  class Motion {
    const lines: LinePlanner
    const driver: D.StepperDriver
    const inv: Invert
    ghost const start: Triple // motor position at the last synchronisation
    var prep: Prep
    var blocks: seq<M.Job> // the step data of the queued blocks
    var hold: bool // a feed hold, motion cancel or door stop

    /** The planner's queue is the machine's jobs still to be cut, and both are at the same position. */
    ghost predicate Linked()
      reads this, lines, lines.planner, lines.planner.blockBuffer, driver, driver.segmentBuffer, driver.stBlockBuffer
    {
      && lines.planner.Valid() && driver.Valid()
      && lines.position == driver.m.plannerPosition && inv == driver.m.inv && start == driver.m.start
      && |blocks| == |lines.planner.queue| && blocks == Pending(driver.m)
    }

    /** The block being cut is the planner's tail, taken up or to be taken up again. */
    ghost predicate TailPrepared()
      reads this, lines, lines.planner, lines.planner.blockBuffer, prep, driver, driver.segmentBuffer, driver.stBlockBuffer
    {
      var planner := lines.planner;
      if driver.m.cutting then
        && prep.Accounted() && SameBlock(planner, prep) && Cutting(prep, driver)
        && if planner.executing then InStep(planner, prep) else planner.partialBlock && prep.currentSpeed == planner.currentSpeed
      else !planner.executing && !planner.partialBlock
    }

    /** A hold that is still moving slows down; otherwise the plan is in force, by the fastest profile there is. */
    ghost predicate PlanFollowed()
      reads this, lines, lines.planner, lines.planner.blockBuffer, prep
    {
      var planner := lines.planner;
      if hold && prep.currentSpeed != 0.0 then planner.Slowing() && (planner.executing ==> prep.profile.rampType == RampDecel)
      else planner.Optimal() && (planner.executing ==> prep.profile.mmComplete == 0.0 && prep.AtFullSpeed())
    }

    ghost predicate Valid()
      reads this, lines, lines.planner, lines.planner.blockBuffer, prep, driver, driver.segmentBuffer, driver.stBlockBuffer
    {
      Linked() && TailPrepared() && PlanFollowed()
    }

    /** After a reset at the given motor position the planner is synchronised to it. */
    constructor (inv: Invert, position: Triple)
      ensures Valid() && this.inv == inv && start == position && driver.m == M.Initial(inv, position) && !hold
    {
      var planner := new Planner();
      var linePlanner := new LinePlanner(planner);
      linePlanner.position := SyncPosition(inv, position);
      this.inv, start := inv, position;
      lines := linePlanner;
      driver := new D.StepperDriver.StReset(inv, position);
      prep := new Prep.Reset();
      blocks, hold := [], false;
    }

    /** A line is planned. */
    method PlanLine(target: Vec, feedRate: real, inverseTime: bool, settings: Settings, root: real -> real)
      requires Valid() && !hold && |blocks| < BLOCK_BUFFER_SIZE - 1 && settings.inv == inv
      requires Usable(settings) && Positive(settings.maxRate) && Positive(settings.acceleration) && IsRoot(root)
      modifies this, lines, lines.planner, lines.planner.blockBuffer, driver
      ensures Valid() && !hold && driver.m == M.PlanLine(old(driver.m), StepsTo(target, settings))
    {
      hide M.Inv, M.Shape, M.Plan, M.PlanLine, Pending, BlocksOk, BlockOk, OptimalPlan, Measured, StepsTo, Queued, SpeedGain, StoredExit, D.StepperDriver.RingOk,
        Planner.RingOk, Planner.Optimal, Prep.Accounted;
      PendingLine(driver.m, StepsTo(target, settings));
      M.PlanExact(inv, driver.m.plannerPosition, StepsTo(target, settings), 0);
      var job := lines.PlanBufferLine(target, feedRate, inverseTime, settings, root);
      driver.PlanJob(StepsTo(target, settings));
      if job.stepEventCount > 0 {
        blocks := blocks + [job];
      }
    }

    /** A feed hold, motion cancel or door stop begins. */
    method EnterHold()
      requires Valid() && !hold
      modifies this`hold, lines.planner, lines.planner.blockBuffer
      ensures Valid() && hold && driver.m == old(driver.m)
    {
      hide M.Inv, BlocksOk, OptimalPlan, StoppablePlan;
      lines.planner.EnterHold();
      hold := true;
    }

    /** The cycle is started again once nothing more is prepared. */
    method Resume()
      requires Valid() && hold && (prep.currentSpeed == 0.0 || blocks == [])
      modifies this`hold
      ensures Valid() && !hold
    {
      hold := false;
    }

    /** The main timer interrupt. */
    method TimerTick() returns (cycleStop: bool)
      requires Valid()
      modifies driver
      ensures Valid() && driver.m == M.Tick(old(driver.m))
    {
      hide M.Inv, M.Tick, M.Shape, Pending, BlocksOk, OptimalPlan, StoppablePlan, InStep, SameBlock, SpeedGain, StoredExit;
      TickKeeps(driver.m);
      cycleStop := driver.MainTimerIsr();
    }

    /** The tail block is taken up for the pass to come, in the manner of the state the system is in. */
    ghost predicate Ready()
      reads this, lines, lines.planner, lines.planner.blockBuffer, prep, driver, driver.segmentBuffer, driver.stBlockBuffer
    {
      && Linked() && Cutting(prep, driver)
      && if hold then InHold(lines.planner, prep)
         else InStep(lines.planner, prep) && lines.planner.Optimal() && prep.profile.mmComplete == 0.0 && prep.AtFullSpeed()
    }

    /** The step data of a block not yet taken up go into the data ring. */
    method LoadData(root: real -> real)
      requires Valid() && IsRoot(root) && !driver.m.cutting && blocks != [] && !(hold && prep.currentSpeed == 0.0)
      requires |driver.m.queue| < M.SEGMENT_BUFFER_SIZE - 1
      modifies this`prep, driver, driver.stBlockBuffer
      ensures Linked() && Cutting(prep, driver) && prep.Accounted() && SameBlock(lines.planner, prep)
      ensures prep.currentSpeed >= 0.0
      ensures if hold then prep.currentSpeed == lines.planner.exitSpeed else Square(prep.currentSpeed) == lines.planner.queue[0].entrySpeedSqr
      ensures fresh(prep) && M.CanTakeUp(old(driver.m)) && driver.m == M.TakeUp(old(driver.m)) && |driver.m.queue| == |old(driver.m.queue)|
    {
      hide M.Inv, M.TakeUp, Pending, BlocksOk, AtPlan, Breakpoint, CanStop, StoppablePlan;
      PendingTakeUp(driver.m);
      var planner := lines.planner;
      TailOk(planner.queue);
      var b := planner.blockBuffer[planner.blockBufferTail];
      var speed := if hold then planner.exitSpeed else root(b.entrySpeedSqr);
      prep := LoadStepData(driver, blocks[0], b.millimeters, b.nominalSpeedSqr, b.acceleration, speed);
    }

    /** The tail block has its step data and wants a profile, part way or new. */
    ghost predicate WantsProfile()
      reads this, lines, lines.planner, lines.planner.blockBuffer, prep, driver, driver.segmentBuffer, driver.stBlockBuffer
    {
      && Linked() && Cutting(prep, driver) && prep.Accounted() && SameBlock(lines.planner, prep) && !lines.planner.executing
      && prep.currentSpeed >= 0.0
    }

    /** The roots of a profile in normal operation. */
    method CycleRoots(root: real -> real) returns (roots: Roots)
      requires WantsProfile() && IsRoot(root)
      requires lines.planner.Optimal() && Square(prep.currentSpeed) == lines.planner.queue[0].entrySpeedSqr
      ensures BlockOk(lines.planner.queue[0]) && roots.entry == prep.currentSpeed
      ensures RootsOf(roots, lines.planner.queue[0], StoredExit(lines.planner.queue, 0))
    {
      var planner := lines.planner;
      TailOk(planner.queue);
      var b := planner.blockBuffer[planner.blockBufferTail];
      var exitSpeedSqr := planner.PlanGetExecBlockExitSpeedSqr();
      ExitOk(planner.queue, planner.SpeedSqr(), planner.planned);
      assert exitSpeedSqr == StoredExit(planner.queue, 0) && b == planner.queue[0];
      RootsForOk(root, prep.currentSpeed, b, exitSpeedSqr);
      roots := RootsFor(root, prep.currentSpeed, b, exitSpeedSqr);
    }

    method TakeCycleProfile(root: real -> real)
      requires WantsProfile() && IsRoot(root) && !hold
      requires lines.planner.Optimal() && Square(prep.currentSpeed) == lines.planner.queue[0].entrySpeedSqr
      modifies lines.planner, prep`profile
      ensures Ready() && driver.m == old(driver.m)
    {
      hide M.Inv, Pending, BlocksOk, OptimalPlan, RootsOf, RootsFor, IsRoot, Square, SpeedGain, StoredExit, D.StepperDriver.RingOk, Planner.RingOk,
        Planner.Optimal, Prep.Accounted;
      var roots := CycleRoots(root);
      TakeUpBlock(lines.planner, prep, roots);
    }

    method TakeHoldProfile(root: real -> real)
      requires WantsProfile() && IsRoot(root) && hold && lines.planner.Slowing()
      requires prep.currentSpeed == if lines.planner.partialBlock then lines.planner.currentSpeed else lines.planner.exitSpeed
      modifies lines.planner, lines.planner.blockBuffer, prep`profile
      ensures Ready() && driver.m == old(driver.m)
    {
      hide M.Inv, Pending, BlocksOk, StoppablePlan, IsRoot, LeftRoot, Gain, Square;
      var planner := lines.planner;
      var exitRoot := LeftRoot(root, prep.currentSpeed, Gain(prep.acceleration, prep.millimeters));
      LeftRootOk(root, prep.currentSpeed, Gain(prep.acceleration, prep.millimeters));
      TakeUpBlockInHold(planner, prep, exitRoot);
    }

    lemma TailQueued()
      requires Ready()
      ensures |blocks| > 0 && M.Inv(driver.m) && Passed(driver.m, false)
    {
    }

    /** A block taken up already may be cut further. */
    lemma ValidIsReady()
      requires Valid() && lines.planner.executing && !(hold && prep.currentSpeed == 0.0)
      ensures Ready()
    {
      hide M.Inv, Pending, BlocksOk, OptimalPlan, StoppablePlan;
    }

    /** A segment has been cut in machine m, except perhaps at the end of a hold; there will be more until then. */
    ghost predicate CutFrom(m: M.Machine, more: bool)
      reads this`hold, this`prep, prep, driver
    {
      if hold && prep.currentSpeed == 0.0 then !more && (driver.m == m || CutOnce(m, driver.m)) else more && CutOnce(m, driver.m)
    }

    lemma CycleOutcomeIsValid(done: bool)
      requires Linked() && !hold && CycleOutcome(lines.planner, prep, driver, done)
      ensures Valid()
    {
      hide M.Inv, Pending, OptimalPlan, BlocksOk;
    }

    /** A pass has cut a segment, or stopped, in machine m, and the planner has dropped the block if it is done. */
    ghost predicate Passed(m: M.Machine, done: bool)
      requires M.Shape(m)
      reads this, lines, lines.planner, lines.planner.blockBuffer, driver, driver.segmentBuffer, driver.stBlockBuffer
    {
      && lines.planner.Valid() && driver.Valid()
      && lines.position == m.plannerPosition && inv == m.inv && start == m.start && SameFrame(m, driver.m)
      && blocks == Pending(m) && |blocks| > 0
      && |lines.planner.queue| == (if done then |blocks| - 1 else |blocks|)
      && Pending(driver.m) == if done then Pending(m)[1..] else Pending(m)
    }

    method DropDone(ghost m: M.Machine, done: bool)
      requires M.Shape(m) && Passed(m, done)
      modifies this`blocks
      ensures Linked()
    {
      hide M.Inv, Pending, Planner.Valid;
      if done {
        blocks := blocks[1..];
      }
    }

    /** A segment in normal operation. */
    method CutInCycle()
      requires Ready() && !hold && |driver.m.queue| < M.SEGMENT_BUFFER_SIZE - 1
      modifies this`blocks, prep, lines.planner, lines.planner.blockBuffer, driver, driver.segmentBuffer
      ensures Valid() && CutFrom(old(driver.m), true)
    {
      hide M.Inv, Pending, Commits, CutOnce, CycleOutcome, InStep, InHold, SameBlock, Cutting, Planner.Valid, D.StepperDriver.Valid, Planner.Slowing,
        Planner.Optimal, TailPrepared, PlanFollowed, Linked, Valid;
      ghost var m := driver.m;
      TailQueued();
      var segment, done := PrepSegment(lines.planner, prep, driver);
      CycleCuts(done);
      PendingCut(m, segment, driver.m);
      assert Passed(m, done);
      DropDone(m, done);
      CycleOutcomeIsValid(done);
    }

    lemma CycleCuts(done: bool)
      requires CycleOutcome(lines.planner, prep, driver, done)
      ensures driver.m.cutting <==> !done
    {
    }

    lemma HoldOutcomeIsValid(outcome: Outcome)
      requires Linked() && hold && HoldOutcome(lines.planner, prep, driver, outcome)
      ensures Valid() && (outcome != HoldStopped ==> prep.currentSpeed != 0.0)
    {
      hide M.Inv, Pending, StoppablePlan, OptimalPlan, BlocksOk;
    }

    /** A segment in a hold, none once the hold has stopped the machine; the block is still to be dropped. */
    method PassInHold() returns (outcome: Outcome)
      requires Ready() && hold && |driver.m.queue| < M.SEGMENT_BUFFER_SIZE - 1
      modifies prep, lines.planner, lines.planner.blockBuffer, driver, driver.segmentBuffer
      ensures M.Shape(old(driver.m)) && Passed(old(driver.m), outcome == BlockDone) && HoldOutcome(lines.planner, prep, driver, outcome)
      ensures CutFrom(old(driver.m), outcome != HoldStopped)
    {
      hide M.Inv, Pending, Commits, CutOnce, HoldOutcome, InStep, InHold, SameBlock, Cutting, Planner.Valid, D.StepperDriver.Valid;
      ghost var m := driver.m;
      TailQueued();
      var segment;
      segment, outcome := PrepHoldSegment(lines.planner, prep, driver);
      HoldPassed(m, segment, outcome);
    }

    method CutInHold() returns (more: bool)
      requires Ready() && hold && |driver.m.queue| < M.SEGMENT_BUFFER_SIZE - 1
      modifies this`blocks, prep, lines.planner, lines.planner.blockBuffer, driver, driver.segmentBuffer
      ensures Valid() && CutFrom(old(driver.m), more)
    {
      hide Ready, Passed, HoldOutcome, CutFrom, M.Shape, Valid, Linked, Planner.Valid, D.StepperDriver.Valid, M.Inv, Pending;
      ghost var m := driver.m;
      var outcome := PassInHold();
      DropDone(m, outcome == BlockDone);
      HoldOutcomeIsValid(outcome);
      more := outcome != HoldStopped;
    }

    lemma HoldPassed(m: M.Machine, segment: seq<Segment>, outcome: Outcome)
      requires M.Inv(m) && driver.Valid() && HoldOutcome(lines.planner, prep, driver, outcome)
      requires if segment == [] then driver.m == m && outcome == HoldStopped else Commits(m, segment[0], driver.m)
      ensures SameFrame(m, driver.m)
      ensures Pending(driver.m) == if outcome == BlockDone then Pending(m)[1..] else Pending(m)
      ensures hold ==> CutFrom(m, outcome != HoldStopped)
    {
      hide M.Inv, M.Shape, Pending, Commits, CutOnce;
      if segment != [] {
        PendingCut(m, segment[0], driver.m);
      }
    }

    /** One pass of the loop: the tail block is taken up if it is not already, and a segment of it is cut. */
    method PrepPass(root: real -> real) returns (more: bool)
      requires Valid() && IsRoot(root) && !(hold && prep.currentSpeed == 0.0) && |driver.m.queue| < M.SEGMENT_BUFFER_SIZE - 1
      modifies this`prep, this`blocks, prep, lines.planner, lines.planner.blockBuffer, driver, driver.segmentBuffer, driver.stBlockBuffer
      ensures Valid() && PassOf(old(driver.m), driver.m)
      ensures prep == old(prep) || fresh(prep)
      ensures if more then |driver.m.queue| > |old(driver.m.queue)| && !(hold && prep.currentSpeed == 0.0) else AtRest()
    {
      hide M.Inv, BlocksOk, OptimalPlan, StoppablePlan, Pending, M.TakeUp, CutOnce, InStep, InHold, RootsOf, SpeedGain;
      if !lines.planner.executing {
        if blocks == [] {
          return false;
        }
        if !lines.planner.partialBlock {
          LoadData(root);
        }
        if hold {
          TakeHoldProfile(root);
        } else {
          TakeCycleProfile(root);
        }
      } else {
        ValidIsReady();
      }
      ghost var m := driver.m;
      if hold {
        more := CutInHold();
      } else {
        more := true;
        CutInCycle();
      }
      if more {
        CutGrows(m, driver.m);
      }
    }

    /** There is nothing to prepare: no block is queued, or a hold has come to rest. */
    predicate AtRest()
      reads this, prep
    {
      blocks == [] || (hold && prep.currentSpeed == 0.0)
    }

    lemma ValidMachine()
      requires Valid()
      ensures M.Inv(driver.m)
    {
    }

    /** The whole loop, from the check for a hold that has come to rest on: segments are added until the ring is
        full or there is nothing to prepare. */
    method StPrepBuffer(root: real -> real)
      requires Valid() && IsRoot(root)
      modifies this`prep, this`blocks, prep, lines.planner, lines.planner.blockBuffer, driver, driver.segmentBuffer, driver.stBlockBuffer
      ensures Valid() && Extends(old(driver.m), driver.m)
      ensures |driver.m.queue| == M.SEGMENT_BUFFER_SIZE - 1 || AtRest()
    {
      hide Valid, PassOf, M.Inv;
      if hold && prep.currentSpeed == 0.0 {
        return;
      }
      var room := HasRoom();
      while room
        invariant Valid() && !(hold && prep.currentSpeed == 0.0) && |driver.m.queue| < M.SEGMENT_BUFFER_SIZE
        invariant room ==> |driver.m.queue| < M.SEGMENT_BUFFER_SIZE - 1
        invariant !room ==> |driver.m.queue| == M.SEGMENT_BUFFER_SIZE - 1
        invariant prep == old(prep) || fresh(prep)
        invariant Extends(old(driver.m), driver.m)
        decreases M.SEGMENT_BUFFER_SIZE - |driver.m.queue|
      {
        ghost var m := driver.m;
        ValidMachine();
        var more := PrepPass(root);
        PassExtends(m, driver.m);
        if !more {
          break;
        }
        room := HasRoom();
      }
    }

    method HasRoom() returns (room: bool)
      requires Valid()
      ensures room <==> |driver.m.queue| < M.SEGMENT_BUFFER_SIZE - 1
      ensures |driver.m.queue| < M.SEGMENT_BUFFER_SIZE
    {
      room := driver.HasRoom();
    }

    /** Once everything planned has been executed, the motors have gone the way of the lines planned since the last
        synchronisation, and reading their position back gives the planner's exactly as said there. */
    lemma StandstillReadsBack()
      requires Valid() && M.Drained(driver.m)
      ensures forall a :: 0 <= a < 3 ==>
        driver.position[a] - start[a] == ToMotors(inv, lines.position)[a] - ToMotors(inv, SyncPosition(inv, start))[a]
      ensures M.SyncedBack(driver.m) && driver.position == driver.m.position
    {
      M.DrainedReadsBack(driver.m);
    }
  }
}
