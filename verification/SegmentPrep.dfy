/** Cutting a planner block into step segments: step accounting, rates and smoothing levels. */
module SegmentPrep {
  import opened Bresenham
  import opened SegmentTravel
  import opened Reals
  import opened SpeedPlan
  import opened VelocityProfile

  const DT_SEGMENT: real := 1.0 / 6000.0 // min; 100 acceleration ticks per second
  const REQ_MM_INCREMENT_SCALAR: real := 1.25
  const TICKS_PER_MINUTE: real := 960000000.0
  const AMASS_LEVEL1: int := 2000
  const AMASS_LEVEL2: int := 4000
  const AMASS_LEVEL3: int := 8000

  function Ceil(x: real): (c: int)
    ensures (c - 1) as real < x <= c as real
  {
    -((-x).Floor)
  }

  /** Steps, with a fraction, in x millimetres. */
  function StepsIn(stepPerMm: real, x: real): real {
    stepPerMm * x
  }

  /** A segment of n whole steps of the block, run as ticks = n << amassLevel timer ticks. */
  datatype Segment = Segment(n: nat, amassLevel: nat, ticks: nat, cyclesPerTick: nat)

  datatype Outcome = MoreOfBlock | BlockDone | HoldStopped

  /** The smoothing level for a segment of `cycles` timer cycles a step: the timer runs at more than one tick in
      2000 cycles (8 kHz) as long as three levels are enough, and smoothing never drives it faster than one tick
      in 1000 cycles (16 kHz). */
  method SmoothSegment(n: nat, cycles: nat) returns (s: Segment)
    ensures s.n == n && s.amassLevel <= 3 && s.ticks == n * Pow2(s.amassLevel)
    ensures s.amassLevel > 0 ==> s.cyclesPerTick >= 1000
    ensures cycles < 16000 ==> s.cyclesPerTick < 2000
    ensures cycles >= 8000 ==> s.amassLevel == 3
    ensures s.cyclesPerTick <= 0xffff && s.cyclesPerTick * Pow2(s.amassLevel) <= cycles
    ensures cycles < 0x8_0000 ==> cycles < (s.cyclesPerTick + 1) * Pow2(s.amassLevel)
  {
    var level, perTick := 0, cycles;
    if cycles >= AMASS_LEVEL1 {
      level := if cycles < AMASS_LEVEL2 then 1 else if cycles < AMASS_LEVEL3 then 2 else 3;
      perTick := cycles / Pow2(level);
    }
    s := Segment(n, level, n * Pow2(level), if perTick < 0x1_0000 then perTick else 0xffff);
  }

  /** A segment's travel: the ramp, speed and distance left at its end, the time charged for it, the time
      its slices gave it, the time of a step, and the time of the partial step at its end. */
  datatype Pace = Pace(ramp: RampType, speed: real, x: real, dt: real, given: real, invRate: real, carried: real)

  /** The time charged is the time the profile takes from mm to x, or more if the acceleration ramp ended late. It is the
      time of one slice, unless the profile ends or more than the minimum was left after the slices before the last. */
  ghost predicate TravelTime(p: Profile, a: real, mm: real, minimum: real, speed0: real, pace: Pace) {
    var e := Elapsed(p, a, speed0, mm, pace.ramp, EndSpeed(p, pace.ramp, pace.speed, pace.x), pace.x);
    && pace.dt >= e && (pace.dt == e <==> !LateEnd(p, a, DT_SEGMENT, speed0, mm, pace.ramp))
    && (pace.x > p.mmComplete ==> pace.dt >= pace.given) && (LateEnd(p, a, DT_SEGMENT, speed0, mm, pace.ramp) || pace.dt <= pace.given)
    && pace.given >= DT_SEGMENT && (pace.given > DT_SEGMENT ==> Extended(p, a, mm, minimum, DT_SEGMENT, speed0, pace.given))
  }

  /** What is left after the distance a segment must cover. */
  function MinimumLeft(millimeters: real, increment: real): real {
    if millimeters - increment < 0.0 then 0.0 else millimeters - increment
  }

  /** The segment's steps and the partial step after them take that time and what was carried from before, and the
      timer is set to the time of a step as near as the smoothing level lets it. */
  ghost predicate Paced(s: Segment, carried0: real, dt: real, invRate: real, carried: real) {
    && invRate >= 0.0 && Times(s.n as real, invRate) + carried == dt + carried0
    && s.amassLevel <= 3 && s.cyclesPerTick * Pow2(s.amassLevel) <= Ceil(TICKS_PER_MINUTE * invRate)
    && (Ceil(TICKS_PER_MINUTE * invRate) < 0x8_0000 ==> Ceil(TICKS_PER_MINUTE * invRate) < (s.cyclesPerTick + 1) * Pow2(s.amassLevel))
  }

  /** The stepper's preparation state for the planner block being cut, with that block's fields. */
  class Prep {
    // The planner block
    var stepEventCount: nat
    var millimeters: real
    var nominalSpeedSqr: real
    var acceleration: real
    // prep
    var stepsRemaining: real
    var stepPerMm: real
    var reqMmIncrement: real
    var dtRemainder: real
    var currentSpeed: real
    var profile: Profile
    // Steps put into segments so far
    ghost var emitted: nat

    /** The steps already cut and the rounded-up steps left make up the block exactly. */
    ghost predicate Accounted()
      reads this
    {
      && stepPerMm > 0.0 && reqMmIncrement == REQ_MM_INCREMENT_SCALAR / stepPerMm
      && millimeters > 0.0 && stepsRemaining == StepsIn(stepPerMm, millimeters)
      && emitted + Ceil(stepsRemaining) == stepEventCount
      && dtRemainder >= 0.0
    }

    ghost predicate Valid()
      reads this
    {
      && Accounted()
      && Coherent(profile, acceleration, millimeters, currentSpeed)
      && WithinNominal(profile, currentSpeed, nominalSpeedSqr)
    }

    constructor LoadBlock(stepEventCount: nat, millimeters: real, nominalSpeedSqr: real, acceleration: real, speed: real)
      requires stepEventCount > 0 && millimeters > 0.0
      ensures Accounted() && emitted == 0 && currentSpeed == speed
      ensures this.stepEventCount == stepEventCount && this.millimeters == millimeters
      ensures this.nominalSpeedSqr == nominalSpeedSqr && this.acceleration == acceleration
    {
      this.stepEventCount, this.millimeters := stepEventCount, millimeters;
      this.nominalSpeedSqr, this.acceleration := nominalSpeedSqr, acceleration;
      stepsRemaining := stepEventCount as real;
      stepPerMm := stepEventCount as real / millimeters;
      reqMmIncrement := REQ_MM_INCREMENT_SCALAR / (stepEventCount as real / millimeters);
      dtRemainder, currentSpeed := 0.0, speed;
      emitted := 0;
    }

    /** The state after a reset: no block, standing still. */
    constructor Reset()
      ensures currentSpeed == 0.0
    {
      stepEventCount, millimeters, nominalSpeedSqr, acceleration := 0, 0.0, 0.0, 0.0;
      stepsRemaining, stepPerMm, reqMmIncrement, dtRemainder, currentSpeed := 0.0, 0.0, 0.0, 0.0, 0.0;
      profile := Profile(RampAccel, 0.0, 0.0, 0.0, 0.0, 0.0);
      emitted := 0;
    }

    /** The rest of the profile from mmRemaining on, in the given ramp and from the given speed, is the same curve. */
    ghost predicate SameCurve(ramp: RampType, speed: real, mmRemaining: real)
      reads this
    {
      forall y :: profile.mmComplete <= y <= mmRemaining ==>
        SpeedSqrAt(profile.(rampType := ramp), acceleration, mmRemaining, Square(speed), y)
          == SpeedSqrAt(profile, acceleration, millimeters, Square(currentSpeed), y)
    }

    /** Travels one time slice, or as many as it takes to cover a whole step. */
    method TravelFullStep() returns (ramp: RampType, speed: real, mmRemaining: real, dt: real, steps: real, ghost given: real)
      requires Valid()
      ensures 0.0 <= profile.mmComplete <= mmRemaining <= millimeters && dt >= 0.0 && steps == StepsIn(stepPerMm, mmRemaining)
      ensures 0 <= Ceil(steps) <= Ceil(stepsRemaining)
      ensures mmRemaining == 0.0 ==> Ceil(steps) == 0 < Ceil(stepsRemaining)
      ensures mmRemaining > 0.0 ==> Ceil(steps) > 0
      ensures mmRemaining > profile.mmComplete ==> mmRemaining < millimeters && Ceil(steps) < Ceil(stepsRemaining)
      ensures mmRemaining > profile.mmComplete ==> Coherent(profile.(rampType := ramp), acceleration, mmRemaining, speed)
      ensures profile.rampType == RampDecel ==> ramp == RampDecel
      ensures mmRemaining > profile.mmComplete ==>
        SameCurve(ramp, speed, mmRemaining)
      ensures forall carried, invRate ::
        TravelTime(profile, acceleration, millimeters, MinimumLeft(millimeters, reqMmIncrement), currentSpeed,
                   Pace(ramp, speed, mmRemaining, dt, given, invRate, carried))
    {
      var minimum := if millimeters - reqMmIncrement < 0.0 then 0.0 else millimeters - reqMmIncrement;
      StepsTaken(stepPerMm, millimeters, millimeters, reqMmIncrement);
      ramp, speed, mmRemaining, dt, given := TravelSegment(profile, acceleration, millimeters, minimum, DT_SEGMENT, currentSpeed);
      steps := StepsIn(stepPerMm, mmRemaining);
      StepsTaken(stepPerMm, millimeters, mmRemaining, reqMmIncrement);
    }

    /** The block has been replanned or newly loaded: take up a profile for it. */
    method TakeProfile(p: Profile)
      requires Accounted() && Coherent(p, acceleration, millimeters, currentSpeed)
      requires WithinNominal(p, currentSpeed, nominalSpeedSqr)
      modifies this`profile
      ensures Valid() && profile == p
    {
      profile := p;
    }

    /** The profile is the fastest from the present speed to the exit speed. */
    ghost predicate AtFullSpeed()
      reads this
    {
      Fastest(profile, acceleration, millimeters, Square(currentSpeed), Square(profile.exitSpeed), nominalSpeedSqr)
    }

    /** The segment travelled in this pace to where the block now stands, or to the end of the profile. */
    ghost predicate InPace(millimeters0: real, speed0: real, profile0: Profile, carried0: real, segment: Segment, pace: Pace, outcome: Outcome)
      reads this
    {
      && Paced(segment, carried0, pace.dt, pace.invRate, pace.carried)
      && TravelTime(profile0, acceleration, millimeters0, MinimumLeft(millimeters0, reqMmIncrement), speed0, pace)
      && (if outcome == MoreOfBlock then pace.ramp == profile.rampType && pace.speed == currentSpeed && pace.x == millimeters
          else pace.x == profile0.mmComplete)
      && (outcome != HoldStopped ==> pace.carried == dtRemainder)
    }

    /** What one pass of the segment buffer loop has done. The segment's whole steps are exactly the steps the
        block lost; outside a hold there is always a segment, and it has at least one step. Its steps take the time
        of its travel along the profile, and a fastest profile stays the fastest. */
    ghost predicate Prepared(emitted0: nat, millimeters0: real, speed0: real, profile0: Profile, carried0: real, hold: bool,
        segment: seq<Segment>, outcome: Outcome)
      reads this
    {
      && |segment| <= 1 && (segment == [] ==> hold && outcome == HoldStopped)
      && (segment != [] ==> segment[0].n >= 1 && segment[0].amassLevel <= 3 && segment[0].ticks == segment[0].n * Pow2(segment[0].amassLevel))
      && emitted == emitted0 + (if segment == [] then 0 else segment[0].n)
      && (!hold ==> outcome != HoldStopped)
      && (segment != [] ==> exists pace :: InPace(millimeters0, speed0, profile0, carried0, segment[0], pace, outcome))
      && (profile0.rampType == RampDecel ==> profile.rampType == RampDecel)
      && match outcome
         case MoreOfBlock =>
           && Valid() && emitted < stepEventCount && profile.mmComplete < millimeters < millimeters0 && profile == profile0.(rampType := profile.rampType)
           && (profile.mmComplete == 0.0 && Fastest(profile0, acceleration, millimeters0, Square(speed0), Square(profile0.exitSpeed), nominalSpeedSqr) ==>
                 AtFullSpeed())
           && (profile.mmComplete == 0.0 ==>
                 ProgressOk(Square(speed0), Gain(acceleration, millimeters0), Square(currentSpeed), Gain(acceleration, millimeters), Square(profile.exitSpeed)))
         case BlockDone => emitted == stepEventCount && profile == profile0 && profile.mmComplete == 0.0 && currentSpeed == speed0
         case HoldStopped => Accounted() && currentSpeed == 0.0 && emitted < stepEventCount && profile == profile0
    }

    method PrepareSegment(hold: bool) returns (segment: seq<Segment>, outcome: Outcome)
      requires Valid() && (!hold ==> profile.mmComplete == 0.0)
      modifies this`millimeters, this`stepsRemaining, this`dtRemainder, this`currentSpeed, this`profile, this`emitted
      ensures Prepared(old(emitted), old(millimeters), old(currentSpeed), old(profile), old(dtRemainder), hold, segment, outcome)
    {
      hide Coherent, WithinNominal, SpeedSqrAt, StepsIn, Ceil, Gain, Square, ProgressOk, Pow2, Times, TravelTime, Paced, Fastest, SameCurve;
      ghost var carried0, mm0, speed0, profile0 := dtRemainder, millimeters, currentSpeed, profile;
      var ramp, speed, mmRemaining, dt, steps, given := TravelFullStep();
      var nSteps, lastNSteps := Ceil(steps), Ceil(stepsRemaining);
      var n: nat := lastNSteps - nSteps;
      if n == 0 && hold {
        segment, outcome := [], HoldStopped;
        StopInBlock(nSteps);
        return;
      }
      var s, invRate := RateSegment(n, dt, lastNSteps, nSteps, steps);
      segment := [s];
      ghost var pace := Pace(ramp, speed, mmRemaining, dt, given, invRate, dtRemainder);
      assert Paced(s, carried0, dt, invRate, dtRemainder);
      assert TravelTime(profile0, acceleration, mm0, MinimumLeft(mm0, reqMmIncrement), speed0, pace);
      if mmRemaining > profile.mmComplete {
        outcome := MoreOfBlock;
        ContinueBlock(ramp, speed, mmRemaining, n);
      } else {
        emitted := emitted + n;
        if mmRemaining > 0.0 {
          outcome := HoldStopped;
          StopInBlock(nSteps);
        } else {
          outcome := BlockDone;
        }
      }
      assert InPace(mm0, speed0, profile0, carried0, s, pace, outcome);
    }

    /** Timing of a segment: its n steps at `invRate` minutes each and the partial step after them take exactly
        the travelling time and what was carried from the partial step before; the time of the partial step
        after them is carried on. */
    method RateSegment(n: nat, dt: real, lastNSteps: int, nSteps: int, steps: real) returns (s: Segment, invRate: real)
      requires n == lastNSteps - nSteps && steps < lastNSteps as real && dt + dtRemainder >= 0.0 && steps <= nSteps as real
      modifies this`dtRemainder
      ensures s.n == n && s.amassLevel <= 3 && s.ticks == n * Pow2(s.amassLevel)
      ensures dtRemainder >= 0.0 && dtRemainder == Times(nSteps as real - steps, invRate)
      ensures Paced(s, old(dtRemainder), dt, invRate, dtRemainder)
    {
      var total, travelled, left := dt + dtRemainder, lastNSteps as real - steps, nSteps as real - steps;
      invRate := total / travelled;
      PartialSteps(n as real, left, travelled, total);
      dtRemainder := left * invRate;
      s := SmoothSegment(n, Ceil(TICKS_PER_MINUTE * invRate));
    }

    method ContinueBlock(ramp: RampType, speed: real, mmRemaining: real, ghost n: nat)
      requires Valid() && profile.mmComplete < mmRemaining < millimeters
      requires n == Ceil(stepsRemaining) - Ceil(StepsIn(stepPerMm, mmRemaining))
      requires Coherent(profile.(rampType := ramp), acceleration, mmRemaining, speed) && (profile.rampType == RampDecel ==> ramp == RampDecel)
      requires SameCurve(ramp, speed, mmRemaining)
      modifies this`millimeters, this`stepsRemaining, this`currentSpeed, this`profile, this`emitted
      ensures Valid() && emitted == old(emitted) + n && profile.mmComplete < millimeters == mmRemaining
      ensures profile == old(profile).(rampType := ramp) && currentSpeed == speed
      ensures profile.mmComplete == 0.0 && old(AtFullSpeed()) ==> AtFullSpeed()
      ensures profile.mmComplete == 0.0 ==>
        ProgressOk(Square(old(currentSpeed)), Gain(acceleration, old(millimeters)), Square(currentSpeed), Gain(acceleration, millimeters), Square(profile.exitSpeed))
    {
      ProfileProgress(profile, acceleration, millimeters, currentSpeed, nominalSpeedSqr, ramp, speed, mmRemaining);
      if profile.mmComplete == 0.0 && AtFullSpeed() {
        CoherentTraces(profile.(rampType := ramp), acceleration, mmRemaining, speed, nominalSpeedSqr, mmRemaining, mmRemaining);
        FastestContinues(profile, profile.(rampType := ramp), acceleration, millimeters, Square(currentSpeed), Square(profile.exitSpeed), nominalSpeedSqr,
                         mmRemaining, Square(speed));
      }
      millimeters, stepsRemaining := mmRemaining, StepsIn(stepPerMm, mmRemaining);
      currentSpeed, profile := speed, profile.(rampType := ramp);
      emitted := emitted + n;
    }

    /** The hold has ended inside the block, which keeps the n whole steps not yet cut. */
    method StopInBlock(n: nat)
      requires stepPerMm > 0.0 && reqMmIncrement == REQ_MM_INCREMENT_SCALAR / stepPerMm
      requires n > 0 && emitted + n == stepEventCount
      modifies this`millimeters, this`stepsRemaining, this`dtRemainder, this`currentSpeed
      ensures Accounted() && currentSpeed == 0.0
    {
      currentSpeed, dtRemainder := 0.0, 0.0;
      stepsRemaining := n as real;
      millimeters := stepsRemaining / stepPerMm;
    }
  }

  lemma PartialSteps(n: real, left: real, travelled: real, total: real)
    requires travelled > 0.0 && left >= 0.0 && total >= 0.0 && n + left == travelled
    ensures total / travelled >= 0.0 && Times(left, total / travelled) >= 0.0
    ensures Times(n, total / travelled) + Times(left, total / travelled) == total
  {
    var r := total / travelled;
    assert r * travelled == total;
    NonNegative(left, r);
  }

  lemma StepsApart(stepPerMm: real, x: real, y: real)
    requires stepPerMm > 0.0
    ensures StepsIn(stepPerMm, y) - StepsIn(stepPerMm, x) == StepsIn(stepPerMm, y - x)
    ensures x < y <==> StepsIn(stepPerMm, x) < StepsIn(stepPerMm, y)
    ensures StepsIn(stepPerMm, 0.0) == 0.0
  {
    assert stepPerMm * y - stepPerMm * x == stepPerMm * (y - x);
    MulSign(stepPerMm, y - x);
  }

  lemma StepsInIncrement(stepPerMm: real)
    requires stepPerMm > 0.0
    ensures REQ_MM_INCREMENT_SCALAR / stepPerMm > 0.0
    ensures StepsIn(stepPerMm, REQ_MM_INCREMENT_SCALAR / stepPerMm) == REQ_MM_INCREMENT_SCALAR
  {
    var req := REQ_MM_INCREMENT_SCALAR / stepPerMm;
    assert stepPerMm * req == 1.25;
    MulSign(stepPerMm, req);
  }

  /** Travelling from mm to x left passes whole steps: at least one if the travel is more than
      1.25 steps or reaches the block end. */
  lemma StepsTaken(stepPerMm: real, mm: real, x: real, req: real)
    requires stepPerMm > 0.0 && 0.0 <= x <= mm && 0.0 < mm && req == REQ_MM_INCREMENT_SCALAR / stepPerMm
    ensures 0 <= Ceil(StepsIn(stepPerMm, x)) <= Ceil(StepsIn(stepPerMm, mm)) && req > 0.0
    ensures x == 0.0 || x <= (if mm - req < 0.0 then 0.0 else mm - req) ==> Ceil(StepsIn(stepPerMm, x)) < Ceil(StepsIn(stepPerMm, mm))
    ensures x > 0.0 ==> Ceil(StepsIn(stepPerMm, x)) > 0
    ensures x < mm ==> StepsIn(stepPerMm, x) < StepsIn(stepPerMm, mm)
  {
    StepsInIncrement(stepPerMm);
    StepsApart(stepPerMm, 0.0, x);
    StepsApart(stepPerMm, 0.0, mm);
    StepsApart(stepPerMm, x, mm);
    StepsApart(stepPerMm, req, mm - x);
    hide StepsIn, Ceil;
  }

  /** A position reached on the profile is legal progress of the executing block. */
  lemma ProfileProgress(p: Profile, a: real, mm: real, speed0: real, nominal: real, ramp: RampType, speed: real, x: real)
    requires Coherent(p, a, mm, speed0) && p.mmComplete < x <= mm
    requires WithinNominal(p, speed0, nominal) && (p.rampType == RampDecel ==> ramp == RampDecel)
    requires Coherent(p.(rampType := ramp), a, x, speed)
    requires SpeedSqrAt(p.(rampType := ramp), a, x, Square(speed), x) == SpeedSqrAt(p, a, mm, Square(speed0), x)
    ensures WithinNominal(p.(rampType := ramp), speed, nominal)
    ensures p.mmComplete == 0.0 ==> ProgressOk(Square(speed0), Gain(a, mm), Square(speed), Gain(a, x), Square(p.exitSpeed))
  {
    CoherentTraces(p, a, mm, speed0, nominal, x, mm);
    CoherentTraces(p, a, mm, speed0, nominal, p.mmComplete, x);
    assert SpeedSqrAt(p.(rampType := ramp), a, x, Square(speed), x) == Square(speed);
    GainMonotone(a, 0.0, x);
  }
}
