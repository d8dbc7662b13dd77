/** How far one step segment travels along the velocity profile: the do-while loop of segment
    preparation, over real numbers. */
module SegmentTravel {
  import opened Reals
  import opened VelocityProfile

  /** The quotient of two distances or speeds, where 0/0 (standing still with nothing left to travel)
      counts as no time. */
  function Quotient(x: real, y: real): (q: real)
    ensures x >= 0.0 && y >= 0.0 ==> q >= 0.0
  {
    if y == 0.0 then 0.0 else x / y
  }

  /** How many times d fits into u, plus one; 0 once u is negative. */
  function Fits(u: real, d: real): nat
    requires d > 0.0
  {
    if u < 0.0 then 0 else
      assert u / d >= 0.0;
      1 + (u / d).Floor
  }

  lemma FitsDecrease(u: real, d: real)
    requires u >= 0.0 && d > 0.0
    ensures Fits(u - d, d) < Fits(u, d)
  {
    var k, q := u / d, (u - d) / d;
    assert d * (q - (k - 1.0)) == d * q - d * k + d == 0.0;
    MulSign(d, q - (k - 1.0));
  }

  /** Speed c, accelerated by a for time t, takes the position from x to AfterAcceleration. */
  function AfterAcceleration(a: real, t: real, x: real, c: real): real {
    x - t * (c + 0.5 * (a * t))
  }

  function AfterDeceleration(a: real, t: real, x: real, c: real): real {
    x - t * (c - 0.5 * (a * t))
  }

  lemma AccelerationStep(a: real, t: real, x: real, c: real)
    ensures Square(c + a * t) + Gain(a, AfterAcceleration(a, t, x, c)) == Square(c) + Gain(a, x)
    ensures a > 0.0 && t > 0.0 && c >= 0.0 ==> AfterAcceleration(a, t, x, c) < x && a * t > 0.0
  {
    var s := a * t;
    assert Square(c + s) == Square(c) + 2.0 * (c * s) + s * s;
    assert Gain(a, t * (c + 0.5 * s)) == 2.0 * (s * (c + 0.5 * s));
    GainSubtract(a, x, t * (c + 0.5 * s));
    if a > 0.0 && t > 0.0 && c >= 0.0 {
      MulSign(a, t);
      MulSign(t, c + 0.5 * s);
    }
  }

  lemma DecelerationStep(a: real, t: real, x: real, c: real)
    ensures Gain(a, AfterDeceleration(a, t, x, c)) - Square(c - a * t) == Gain(a, x) - Square(c)
    ensures a > 0.0 && t >= 0.0 && c > a * t ==> AfterDeceleration(a, t, x, c) <= x
  {
    var s := a * t;
    assert Square(c - s) == Square(c) - 2.0 * (c * s) + s * s;
    assert Gain(a, t * (c - 0.5 * s)) == 2.0 * (s * (c - 0.5 * s));
    GainSubtract(a, x, t * (c - 0.5 * s));
    if a > 0.0 && t > 0.0 && c > s {
      MulSign(a, t);
      MulSign(t, c - 0.5 * s);
    }
  }

  /** Speed and distance lie on profile p, or on the extension of its later ramps that a time overrun
      at the end of the acceleration ramp can reach while more than `minimum` is left. */
  ghost predicate OnRamp(p: Profile, a: real, mm: real, minimum: real, ramp: RampType, speed: real, x: real) {
    && 0.0 <= speed && p.mmComplete <= x
    && match ramp
       case RampAccel =>
         && p.rampType == RampAccel && p.accelerateUntil <= x <= mm && speed <= p.maximumSpeed
         && Square(speed) + Gain(a, x) == Square(p.maximumSpeed) + Gain(a, p.accelerateUntil)
       case RampCruise =>
         && p.rampType != RampDecel && speed == p.maximumSpeed
         && (x > 0.0 ==> p.decelerateAfter <= x && Square(p.maximumSpeed) == Square(p.exitSpeed) + Gain(a, p.decelerateAfter) && 0.0 <= p.decelerateAfter)
         && (p.rampType == RampAccel ==> x <= p.accelerateUntil || minimum < p.accelerateUntil)
         && (p.rampType == RampCruise ==> x <= mm)
       case RampDecel =>
         && Square(speed) + Gain(a, p.mmComplete) == Square(p.exitSpeed) + Gain(a, x)
         && (p.rampType == RampDecel ==> x <= mm)
         && (p.rampType != RampDecel ==> x <= p.decelerateAfter || minimum < p.decelerateAfter || x == 0.0)
         && (p.rampType == RampAccel && p.accelerateUntil == 0.0 ==> x == 0.0)
  }

  /** A position on the profile with at most `minimum` left, or at the end of a ramp, continues the
      same profile. */
  lemma OnRampCoherent(p: Profile, a: real, mm: real, speed0: real, minimum: real, ramp: RampType, speed: real, x: real)
    requires Coherent(p, a, mm, speed0) && OnRamp(p, a, mm, minimum, ramp, speed, x)
    requires p.mmComplete < x <= minimum <= mm
    ensures Coherent(p.(rampType := ramp), a, x, speed)
    ensures forall y :: p.mmComplete <= y <= x ==>
      SpeedSqrAt(p.(rampType := ramp), a, x, Square(speed), y) == SpeedSqrAt(p, a, mm, Square(speed0), y)
  {
    forall y | p.mmComplete <= y <= x
      ensures SpeedSqrAt(p.(rampType := ramp), a, x, Square(speed), y) == SpeedSqrAt(p, a, mm, Square(speed0), y)
    {
      GainMonotone(a, 0.0, y);
    }
  }

  /** Where another slice of the same ramp can start. */
  predicate GoesOn(p: Profile, ramp: RampType, speed: real, x: real) {
    match ramp
    case RampAccel => speed <= p.maximumSpeed
    case RampCruise => p.maximumSpeed > 0.0 && 0.0 <= x
    case RampDecel => 0.0 < speed && x > p.mmComplete
  }

  function Rank(ramp: RampType): nat {
    match ramp case RampAccel => 2 case RampCruise => 1 case RampDecel => 0
  }

  /** What the present ramp still has to use up after a slice of length timeVar, and what a full slice
      uses: speed while accelerating or decelerating, distance while cruising. */
  ghost function Room(p: Profile, a: real, ramp: RampType, speed: real, x: real, timeVar: real): real {
    match ramp
    case RampAccel => p.maximumSpeed - speed
    case RampCruise => x - p.maximumSpeed * timeVar
    case RampDecel => speed - a * timeVar
  }

  ghost function PerSlice(p: Profile, a: real, slice: real, ramp: RampType): real {
    if ramp == RampCruise then p.maximumSpeed * slice else a * slice
  }

  /** How many more full time slices the present ramp can take. */
  ghost function SlicesLeft(p: Profile, a: real, slice: real, ramp: RampType, speed: real, x: real, timeVar: real): nat {
    var d := PerSlice(p, a, slice, ramp);
    if d <= 0.0 then 0 else Fits(Room(p, a, ramp, speed, x, timeVar), d)
  }

  /** A time slice is negative only to take back an overrun at the end of the acceleration ramp. */
  ghost predicate SliceOk(p: Profile, minimum: real, ramp: RampType, timeVar: real, slice: real) {
    && (ramp == RampAccel ==> timeVar == slice)
    && (timeVar < 0.0 ==> p.rampType == RampAccel && minimum < p.accelerateUntil && (ramp == RampDecel ==> p.accelerateUntil == p.decelerateAfter))
  }

  lemma QuotientLess(u: real, d: real, t: real)
    requires d > 0.0 && u < d * t
    ensures u / d < t
  {
    assert d * (t - u / d) == d * t - u;
    MulSign(d, t - u / d);
  }

  lemma AccelerationGoesOn(p: Profile, a: real, mm: real, minimum: real, speed0: real, c: real, x0: real, speed: real, x: real)
    requires Coherent(p, a, mm, speed0) && OnRamp(p, a, mm, minimum, RampAccel, c, x0)
    requires speed >= 0.0 && p.accelerateUntil <= x <= x0 && Square(speed) + Gain(a, x) == Square(c) + Gain(a, x0)
    ensures OnRamp(p, a, mm, minimum, RampAccel, speed, x)
  {
    GainMonotone(a, p.accelerateUntil, x);
    SquareMonotone(speed, p.maximumSpeed);
  }

  lemma AccelerationEnds(p: Profile, a: real, mm: real, minimum: real, speed0: real, ramp: RampType)
    requires Coherent(p, a, mm, speed0) && p.rampType == RampAccel && p.accelerateUntil > 0.0
    requires ramp == if p.accelerateUntil == p.decelerateAfter then RampDecel else RampCruise
    ensures OnRamp(p, a, mm, minimum, ramp, p.maximumSpeed, p.accelerateUntil)
  {
    GainMonotone(a, 0.0, p.accelerateUntil);
  }

  /** The time from position x0 and speed c0 to position x and speed c at a constant acceleration. */
  function RampTime(x0: real, x: real, c0: real, c: real): real {
    Quotient(2.0 * (x0 - x), c0 + c)
  }

  /** It is the time the acceleration needs to change the speed. */
  lemma RampTimeTaken(a: real, x0: real, x: real, c0: real, c: real)
    requires a > 0.0 && c0 >= 0.0 && c > 0.0 && Square(c) - Square(c0) == Gain(a, x0) - Gain(a, x)
    ensures Times(a, RampTime(x0, x, c0, c)) == c - c0
  {
    var d, v := x0 - x, c0 + c;
    assert (c - c0) * v == Square(c) - Square(c0);
    assert 2.0 * a * d == Gain(a, x0) - Gain(a, x);
    var t := 2.0 * d / v;
    assert t * v == 2.0 * d;
    assert a * (t * v) == a * t * v;
    SameFactor(a * t, c - c0, v);
  }

  lemma SameFactor(x: real, y: real, v: real)
    requires v > 0.0 && x * v == y * v
    ensures x == y
  {
    MulSign(v, x - y);
    assert v * (x - y) == x * v - y * v;
  }

  /** The end of the acceleration ramp is charged from where the segment began, not from where the pass did:
      it is the time taken exactly if nothing was travelled before in the segment, and otherwise more. */
  lemma ChargedFromSegmentStart(mm: real, x0: real, x: real, c0: real, c: real)
    requires x <= x0 <= mm && c0 >= 0.0 && c > 0.0
    ensures RampTime(mm, x, c0, c) >= RampTime(x0, x, c0, c)
    ensures RampTime(mm, x, c0, c) == RampTime(x0, x, c0, c) <==> mm == x0
  {
    var v := c0 + c;
    assert 2.0 * (mm - x) / v * v == 2.0 * (mm - x);
    assert 2.0 * (x0 - x) / v * v == 2.0 * (x0 - x);
    var over := 2.0 * (mm - x) / v - 2.0 * (x0 - x) / v;
    assert over * v == 2.0 * (mm - x0);
    MulSign(v, over);
    assert v * over == over * v;
  }

  /** The time given to the next pass, with dt of dtMax used up and travel to go on. */
  function NextSlice(dt: real, dtMax: real, slice: real): real {
    if dt < dtMax then dtMax - dt else dtMax + slice - dt
  }

  /** When the acceleration ramp ends, from speed c0 to c at x, the next pass is given a negative time exactly if
      the ramp's end is further from the segment's beginning than two slices at the pass's mean speed. */
  lemma NegativeSlice(mm: real, x: real, c0: real, c: real, dt: real, slice: real)
    requires x <= mm && c0 >= 0.0 && c > 0.0 && slice > 0.0
    ensures NextSlice(dt + RampTime(mm, x, c0, c), dt + slice, slice) < 0.0 <==> mm - x > Times(slice, c0 + c)
  {
    var v := c0 + c;
    var over := RampTime(mm, x, c0, c) - 2.0 * slice;
    assert 2.0 * (mm - x) / v * v == 2.0 * (mm - x);
    assert v * over == 2.0 * (mm - x) - 2.0 * (slice * v);
    MulSign(v, over);
  }

  // ---- The time a profile takes ----

  /** The time along profile p from its start, at speed0 with mm left, to speed with x left in the given ramp: each
      ramp at its own acceleration or speed. */
  function Elapsed(p: Profile, a: real, speed0: real, mm: real, ramp: RampType, speed: real, x: real): real {
    match p.rampType
    case RampAccel =>
      (match ramp
       case RampAccel => Quotient(speed - speed0, a)
       case RampCruise => Quotient(p.maximumSpeed - speed0, a) + Quotient(p.accelerateUntil - x, p.maximumSpeed)
       case RampDecel => Quotient(p.maximumSpeed - speed0, a) + Quotient(p.accelerateUntil - p.decelerateAfter, p.maximumSpeed)
                         + Quotient(p.maximumSpeed - speed, a))
    case RampCruise =>
      (match ramp
       case RampDecel => Quotient(mm - p.decelerateAfter, p.maximumSpeed) + Quotient(p.maximumSpeed - speed, a)
       case _ => Quotient(mm - x, p.maximumSpeed))
    case RampDecel => Quotient(speed0 - speed, a)
  }

  /** At the end of the profile the exit speed has been reached. */
  function EndSpeed(p: Profile, ramp: RampType, speed: real, x: real): real {
    if ramp == RampDecel && x == p.mmComplete then p.exitSpeed else speed
  }

  lemma QuotientMore(x: real, z: real, y: real, t: real)
    requires y > 0.0 && z == x + Times(y, t)
    ensures Quotient(z, y) == Quotient(x, y) + t
  {
    var q := x / y;
    assert q * y == x;
    assert (q + t) * y == z;
    Cancel(z, q + t, y);
  }

  lemma NoTime(y: real)
    requires y > 0.0
    ensures Quotient(0.0, y) == 0.0
  {
  }

  lemma QuotientBack(x: real, y: real)
    requires y > 0.0
    ensures Times(y, Quotient(x, y)) == x
  {
    assert x / y * y == x;
  }

  /** The time from a speed down to another is the change of speed over the acceleration. */
  lemma BrakeTimeTaken(a: real, x0: real, x: real, c0: real, c: real)
    requires a > 0.0 && c0 >= 0.0 && c >= 0.0 && Square(c0) - Square(c) == Gain(a, x0) - Gain(a, x)
    ensures Times(a, RampTime(x0, x, c0, c)) == c0 - c
  {
    if c0 + c > 0.0 {
      var d, v := x0 - x, c0 + c;
      assert (c0 - c) * v == Square(c0) - Square(c);
      assert 2.0 * a * d == Gain(a, x0) - Gain(a, x);
      var t := 2.0 * d / v;
      assert t * v == 2.0 * d;
      assert a * (t * v) == a * t * v;
      SameFactor(a * t, c0 - c, v);
    }
  }

  /** By how much the end of the acceleration ramp is charged too much. */
  function Overcharge(p: Profile, mm: real, c: real, x: real): real {
    RampTime(mm, p.accelerateUntil, c, p.maximumSpeed) - RampTime(x, p.accelerateUntil, c, p.maximumSpeed)
  }

  lemma AccelerationTime(p: Profile, a: real, mm: real, speed0: real, speedIn: real, x0: real, speed: real, x: real, t: real)
    requires a > 0.0 && p.rampType == RampAccel && speed == speedIn + Times(a, t)
    ensures Elapsed(p, a, speed0, mm, RampAccel, speed, x) == Elapsed(p, a, speed0, mm, RampAccel, speedIn, x0) + t
  {
    hide Quotient, Times;
    QuotientMore(speedIn - speed0, speed - speed0, a, t);
  }

  lemma AccelerationEndTime(p: Profile, a: real, mm: real, minimum: real, speed0: real, speedIn: real, x0: real, ramp: RampType)
    requires Coherent(p, a, mm, speed0) && OnRamp(p, a, mm, minimum, RampAccel, speedIn, x0)
    requires ramp != RampAccel && (ramp == RampDecel ==> p.accelerateUntil == p.decelerateAfter)
    ensures Elapsed(p, a, speed0, mm, ramp, p.maximumSpeed, p.accelerateUntil)
         == Elapsed(p, a, speed0, mm, RampAccel, speedIn, x0) + RampTime(x0, p.accelerateUntil, speedIn, p.maximumSpeed)
  {
    hide Quotient, Times, RampTime, Gain, Square;
    var t := RampTime(x0, p.accelerateUntil, speedIn, p.maximumSpeed);
    RampTimeTaken(a, x0, p.accelerateUntil, speedIn, p.maximumSpeed);
    QuotientMore(speedIn - speed0, p.maximumSpeed - speed0, a, t);
    NoTime(p.maximumSpeed);
    NoTime(a);
  }

  lemma CruiseTime(p: Profile, a: real, mm: real, speed0: real, x0: real, x: real, t: real)
    requires p.rampType != RampDecel && p.maximumSpeed > 0.0 && x == x0 - Times(p.maximumSpeed, t)
    ensures Elapsed(p, a, speed0, mm, RampCruise, p.maximumSpeed, x) == Elapsed(p, a, speed0, mm, RampCruise, p.maximumSpeed, x0) + t
  {
    hide Quotient, Times;
    var from := if p.rampType == RampAccel then p.accelerateUntil else mm;
    QuotientMore(from - x0, from - x, p.maximumSpeed, t);
  }

  lemma CruiseEndTime(p: Profile, a: real, mm: real, speed0: real, x0: real)
    requires a > 0.0 && p.rampType != RampDecel && p.maximumSpeed > 0.0
    ensures Elapsed(p, a, speed0, mm, RampDecel, p.maximumSpeed, p.decelerateAfter)
         == Elapsed(p, a, speed0, mm, RampCruise, p.maximumSpeed, x0) + Quotient(x0 - p.decelerateAfter, p.maximumSpeed)
  {
    hide Quotient, Times;
    var q := Quotient(x0 - p.decelerateAfter, p.maximumSpeed);
    QuotientBack(x0 - p.decelerateAfter, p.maximumSpeed);
    CruiseTime(p, a, mm, speed0, x0, p.decelerateAfter, q);
    NoTime(a);
  }

  lemma DecelerationTime(p: Profile, a: real, mm: real, speed0: real, speedIn: real, x0: real, speed: real, x: real, t: real)
    requires a > 0.0 && speed == speedIn - Times(a, t)
    ensures Elapsed(p, a, speed0, mm, RampDecel, speed, x) == Elapsed(p, a, speed0, mm, RampDecel, speedIn, x0) + t
  {
    hide Quotient, Times;
    var from := if p.rampType == RampDecel then speed0 else p.maximumSpeed;
    QuotientMore(from - speedIn, from - speed, a, t);
  }

  lemma DecelerationEndTime(p: Profile, a: real, mm: real, minimum: real, speed0: real, speedIn: real, x0: real)
    requires Coherent(p, a, mm, speed0) && OnRamp(p, a, mm, minimum, RampDecel, speedIn, x0)
    ensures Elapsed(p, a, speed0, mm, RampDecel, p.exitSpeed, p.mmComplete)
         == Elapsed(p, a, speed0, mm, RampDecel, speedIn, x0) + RampTime(x0, p.mmComplete, speedIn, p.exitSpeed)
  {
    hide Quotient, Times, RampTime, Elapsed, Gain, Square;
    BrakeTimeTaken(a, x0, p.mmComplete, speedIn, p.exitSpeed);
    DecelerationTime(p, a, mm, speed0, speedIn, x0, p.exitSpeed, p.mmComplete, RampTime(x0, p.mmComplete, speedIn, p.exitSpeed));
  }

  /** A profile without a deceleration ends at its maximum speed. */
  lemma EndsAtMaximum(p: Profile, a: real, mm: real, speed0: real, x: real)
    requires Coherent(p, a, mm, speed0) && p.rampType != RampDecel && x == p.mmComplete
    requires (p.rampType == RampAccel && x == p.accelerateUntil) || (x == p.decelerateAfter && !(p.rampType == RampAccel && p.accelerateUntil == 0.0))
    ensures p.exitSpeed == p.maximumSpeed
  {
    GainMonotone(a, 0.0, p.decelerateAfter);
    SquareMonotone(p.exitSpeed, p.maximumSpeed);
    SquareMonotone(p.maximumSpeed, p.exitSpeed);
  }

  /** What one pass of the loop does to ramp, speed and distance, and the time t it charges. */
  ghost predicate Passed(p: Profile, a: real, mm: real, slice: real, ramp0: RampType, speedIn: real, x0: real, t0: real,
      ramp: RampType, speed: real, x: real, t: real) {
    match ramp0
    case RampAccel =>
      && (ramp == RampAccel <==> AfterAcceleration(a, slice, x0, speedIn) >= p.accelerateUntil)
      && (ramp == RampDecel ==> p.accelerateUntil == p.decelerateAfter)
      && if ramp == RampAccel then t == slice && speed == speedIn + a * slice && x == AfterAcceleration(a, slice, x0, speedIn) < x0
         else x == p.accelerateUntil && speed == p.maximumSpeed && t == RampTime(mm, x, speedIn, speed)
    case RampCruise =>
      && ramp != RampAccel && speed == p.maximumSpeed > 0.0
      && if ramp == RampCruise then t == t0 && x == x0 - p.maximumSpeed * t0
         else x == p.decelerateAfter && t == Quotient(x0 - x, p.maximumSpeed)
    case RampDecel =>
      ramp == RampDecel
      && if x == p.mmComplete then t == RampTime(x0, x, speedIn, p.exitSpeed) else t == t0 && speed == speedIn - a * t0
  }

  /** One pass of the loop takes the time it is given credit for, but for the overcharge at the end of the
      acceleration ramp. */
  lemma PassTime(p: Profile, a: real, mm: real, minimum: real, slice: real, speed0: real, ramp0: RampType, speedIn: real, x0: real, t0: real,
      ramp: RampType, speed: real, x: real, t: real)
    requires Coherent(p, a, mm, speed0) && OnRamp(p, a, mm, minimum, ramp0, speedIn, x0)
    requires x0 > p.mmComplete || p.rampType == RampDecel
    requires Passed(p, a, mm, slice, ramp0, speedIn, x0, t0, ramp, speed, x, t)
    ensures Elapsed(p, a, speed0, mm, ramp, EndSpeed(p, ramp, speed, x), x)
         == Elapsed(p, a, speed0, mm, ramp0, speedIn, x0) + t
            - if ramp0 == RampAccel && ramp != RampAccel then Overcharge(p, mm, speedIn, x0) else 0.0
  {
    hide Quotient, RampTime, Gain, Square, Elapsed, AfterAcceleration;
    match ramp0 {
      case RampAccel =>
        if ramp == RampAccel {
          AccelerationTime(p, a, mm, speed0, speedIn, x0, speed, x, slice);
        } else {
          AccelerationEndTime(p, a, mm, minimum, speed0, speedIn, x0, ramp);
        }
      case RampCruise =>
        if ramp == RampCruise {
          CruiseTime(p, a, mm, speed0, x0, x, t0);
        } else {
          CruiseEndTime(p, a, mm, speed0, x0);
        }
      case RampDecel =>
        if x == p.mmComplete {
          DecelerationEndTime(p, a, mm, minimum, speed0, speedIn, x0);
        } else {
          DecelerationTime(p, a, mm, speed0, speedIn, x0, speed, x, t0);
        }
    }
    if ramp == RampDecel != ramp0 && x == p.mmComplete {
      EndsAtMaximum(p, a, mm, speed0, x);
    }
  }

  /** The acceleration ramp has ended after an earlier pass of the segment stayed on it. */
  predicate LateEnd(p: Profile, a: real, slice: real, speed0: real, mm: real, ramp: RampType) {
    p.rampType == RampAccel && ramp != RampAccel && AfterAcceleration(a, slice, mm, speed0) >= p.accelerateUntil
  }

  /** The time dt charged so far is the time the profile takes unless the acceleration ramp ended late, and then more.
      On the acceleration ramp, either nothing has been travelled yet or an earlier pass stayed on it. */
  ghost predicate Charged(p: Profile, a: real, slice: real, speed0: real, mm: real, dt: real, ramp: RampType, speed: real, x: real) {
    && dt >= Elapsed(p, a, speed0, mm, ramp, speed, x)
    && (dt == Elapsed(p, a, speed0, mm, ramp, speed, x) <==> !LateEnd(p, a, slice, speed0, mm, ramp))
    && (ramp == RampAccel ==> x >= p.accelerateUntil)
    && (ramp == RampAccel ==>
          (x == mm && speed == speed0) || (x < mm && AfterAcceleration(a, slice, mm, speed0) >= p.accelerateUntil))
  }

  lemma NothingCharged(p: Profile, a: real, slice: real, mm: real, speed0: real)
    requires Coherent(p, a, mm, speed0)
    ensures Charged(p, a, slice, speed0, mm, 0.0, p.rampType, speed0, mm)
  {
    hide AfterAcceleration;
    assert Quotient(0.0, a) == 0.0;
    assert Quotient(0.0, p.maximumSpeed) == 0.0;
  }

  /** The overcharge is nothing exactly if the ramp ends in the segment's first pass. */
  lemma OverchargeLate(p: Profile, a: real, mm: real, minimum: real, slice: real, speed0: real, dt: real, speedIn: real, x0: real)
    requires Coherent(p, a, mm, speed0) && OnRamp(p, a, mm, minimum, RampAccel, speedIn, x0)
    requires Charged(p, a, slice, speed0, mm, dt, RampAccel, speedIn, x0) && AfterAcceleration(a, slice, x0, speedIn) < p.accelerateUntil
    ensures Overcharge(p, mm, speedIn, x0) >= 0.0
    ensures Overcharge(p, mm, speedIn, x0) == 0.0 <==> AfterAcceleration(a, slice, mm, speed0) < p.accelerateUntil
  {
    hide Elapsed, RampTime, AfterAcceleration;
    ChargedFromSegmentStart(mm, x0, p.accelerateUntil, speedIn, p.maximumSpeed);
  }

  lemma PassCharged(p: Profile, a: real, mm: real, minimum: real, slice: real, speed0: real, dt: real, ramp0: RampType, speedIn: real, x0: real, t0: real,
      ramp: RampType, speed: real, x: real, t: real)
    requires Coherent(p, a, mm, speed0) && OnRamp(p, a, mm, minimum, ramp0, speedIn, x0)
    requires x0 > p.mmComplete || p.rampType == RampDecel
    requires Charged(p, a, slice, speed0, mm, dt, ramp0, speedIn, x0)
    requires Passed(p, a, mm, slice, ramp0, speedIn, x0, t0, ramp, speed, x, t)
    ensures Charged(p, a, slice, speed0, mm, dt + t, ramp, EndSpeed(p, ramp, speed, x), x)
  {
    hide Elapsed, Overcharge, AfterAcceleration, RampTime, Quotient, Gain, Square;
    PassTime(p, a, mm, minimum, slice, speed0, ramp0, speedIn, x0, t0, ramp, speed, x, t);
    if ramp0 == RampAccel && ramp != RampAccel {
      OverchargeLate(p, a, mm, minimum, slice, speed0, dt, speedIn, x0);
    }
  }

  const SLOW_START := Profile(RampAccel, 0.0, 10.375, 0.0, 4.5, 4.5)

  /** A segment that needs several slices for its one step, and is still accelerating in the fourth: the next
      pass takes back part of the time the end of the ramp was charged. */
  lemma SlowSegmentOverruns()
    ensures Coherent(SLOW_START, 1.0, 20.0, 1.0)
    ensures AfterAcceleration(1.0, 1.0, 20.0, 1.0) == 18.5 && AfterAcceleration(1.0, 1.0, 18.5, 2.0) == 16.0
    ensures AfterAcceleration(1.0, 1.0, 16.0, 3.0) == 12.5
    ensures AfterAcceleration(1.0, 1.0, 12.5, 4.0) < SLOW_START.accelerateUntil
    ensures NextSlice(3.0 + RampTime(20.0, SLOW_START.accelerateUntil, 4.0, SLOW_START.maximumSpeed), 4.0, 1.0) < 0.0
  {
    NegativeSlice(20.0, SLOW_START.accelerateUntil, 4.0, SLOW_START.maximumSpeed, 3.0, 1.0);
  }

  /** A ramp that a time would overrun ends within that time. */
  lemma EndsWithin(a: real, t: real, x0: real, c0: real, x: real, c: real)
    requires a > 0.0 && c0 >= 0.0 && c > 0.0 && t > 0.0 && Square(c) - Square(c0) == Gain(a, x0) - Gain(a, x)
    requires AfterAcceleration(a, t, x0, c0) < x <= x0
    ensures RampTime(x0, x, c0, c) <= t
  {
    hide RampTime, AfterAcceleration, Gain;
    var s := RampTime(x0, x, c0, c);
    RampTimeTaken(a, x0, x, c0, c);
    AccelerationStep(a, t, x0, c0);
    if s > t {
      MulSign(a, s - t);
      assert a * (s - t) == a * s - a * t;
      MulSign(a, t);
      SquareStrict(c0 + a * t, c);
      GainMonotone(a, x, AfterAcceleration(a, t, x0, c0));
    }
  }

  lemma BrakesWithin(a: real, t: real, x0: real, c0: real, x: real, c: real)
    requires a > 0.0 && c0 >= 0.0 && c >= 0.0 && Square(c0) - Square(c) == Gain(a, x0) - Gain(a, x)
    requires c0 <= a * t || AfterDeceleration(a, t, x0, c0) <= x
    ensures RampTime(x0, x, c0, c) <= t
  {
    hide RampTime, AfterDeceleration, Gain;
    var s := RampTime(x0, x, c0, c);
    BrakeTimeTaken(a, x0, x, c0, c);
    DecelerationStep(a, t, x0, c0);
    if s > t {
      MulSign(a, s - t);
      assert a * (s - t) == a * s - a * t;
      SquareStrict(c, c0 - a * t);
      GainMonotone(a, AfterDeceleration(a, t, x0, c0), x);
    }
  }

  method AccelerationPass(p: Profile, a: real, mm: real, minimum: real, slice: real, ghost speed0: real, speedIn: real, x0: real)
      returns (ramp: RampType, speed: real, x: real, timeVar: real)
    requires Coherent(p, a, mm, speed0) && slice > 0.0
    requires OnRamp(p, a, mm, minimum, RampAccel, speedIn, x0)
    ensures p.mmComplete <= x && (x > p.mmComplete ==> OnRamp(p, a, mm, minimum, ramp, speed, x))
    ensures if ramp == RampAccel then timeVar == slice && speed <= p.maximumSpeed else x == p.accelerateUntil && timeVar >= 0.0
    ensures ramp == RampDecel ==> p.accelerateUntil == p.decelerateAfter
    ensures Passed(p, a, mm, slice, RampAccel, speedIn, x0, slice, ramp, speed, x, timeVar)
    ensures x0 == mm ==> timeVar <= slice
  {
    var speedVar := a * slice;
    x := AfterAcceleration(a, slice, x0, speedIn);
    AccelerationStep(a, slice, x0, speedIn);
    if x < p.accelerateUntil {
      x := p.accelerateUntil;
      timeVar := RampTime(mm, x, speedIn, p.maximumSpeed);
      ramp := if x == p.decelerateAfter then RampDecel else RampCruise;
      speed := p.maximumSpeed;
      if x0 == mm {
        EndsWithin(a, slice, x0, speedIn, x, speed);
      }
      if x > 0.0 {
        AccelerationEnds(p, a, mm, minimum, speed0, ramp);
      }
    } else {
      ramp, timeVar, speed := RampAccel, slice, speedIn + speedVar;
      AccelerationGoesOn(p, a, mm, minimum, speed0, speedIn, x0, speed, x);
    }
  }

  method CruisePass(p: Profile, a: real, mm: real, minimum: real, ghost slice: real, ghost speed0: real, x0: real, timeVar0: real)
      returns (ramp: RampType, x: real, timeVar: real)
    requires Coherent(p, a, mm, speed0) && 0.0 <= minimum && x0 > p.mmComplete
    requires OnRamp(p, a, mm, minimum, RampCruise, p.maximumSpeed, x0)
    requires timeVar0 < 0.0 ==> p.rampType == RampAccel && minimum < p.accelerateUntil
    ensures p.mmComplete <= x && (x > p.mmComplete ==> OnRamp(p, a, mm, minimum, ramp, p.maximumSpeed, x))
    ensures if ramp == RampCruise then timeVar == timeVar0 && 0.0 < p.maximumSpeed && 0.0 <= x else ramp == RampDecel && 0.0 <= timeVar < timeVar0
    ensures Passed(p, a, mm, slice, RampCruise, p.maximumSpeed, x0, timeVar0, ramp, p.maximumSpeed, x, timeVar)
  {
    x := x0 - p.maximumSpeed * timeVar0;
    MulSign(p.maximumSpeed, timeVar0);
    ramp, timeVar := RampCruise, timeVar0;
    if x < p.decelerateAfter {
      QuotientLess(x0 - p.decelerateAfter, p.maximumSpeed, timeVar0);
      timeVar := (x0 - p.decelerateAfter) / p.maximumSpeed;
      x := p.decelerateAfter;
      ramp := RampDecel;
      GainMonotone(a, 0.0, x);
    }
  }

  method DecelerationPass(p: Profile, a: real, mm: real, minimum: real, ghost slice: real, ghost speed0: real, speedIn: real, x0: real, timeVar0: real)
      returns (speed: real, x: real, timeVar: real)
    requires Coherent(p, a, mm, speed0)
    requires OnRamp(p, a, mm, minimum, RampDecel, speedIn, x0) && 0.0 <= minimum
    requires x0 > p.mmComplete || p.rampType == RampDecel
    requires timeVar0 < 0.0 ==> p.rampType == RampAccel && minimum < p.accelerateUntil == p.decelerateAfter
    ensures p.mmComplete <= x && (x == p.mmComplete ==> timeVar >= 0.0)
    ensures x > p.mmComplete ==>
      OnRamp(p, a, mm, minimum, RampDecel, speed, x) && timeVar == timeVar0 && 0.0 < speed
    ensures Passed(p, a, mm, slice, RampDecel, speedIn, x0, timeVar0, RampDecel, speed, x, timeVar)
    ensures timeVar <= timeVar0
  {
    var speedVar := a * timeVar0;
    x := AfterDeceleration(a, timeVar0, x0, speedIn);
    DecelerationStep(a, timeVar0, x0, speedIn);
    if speedIn > speedVar && x > p.mmComplete {
      speed, timeVar := speedIn - speedVar, timeVar0;
    } else {
      speed := speedIn;
      timeVar := RampTime(x0, p.mmComplete, speedIn, p.exitSpeed);
      BrakesWithin(a, timeVar0, x0, speedIn, p.mmComplete, p.exitSpeed);
      x := p.mmComplete;
    }
  }

  /** One pass of the loop: the switch over the present ramp. */
  method Pass(p: Profile, a: real, mm: real, minimum: real, slice: real, ghost speed0: real, ghost dt: real,
      ramp0: RampType, speedIn: real, x0: real, timeVar0: real) returns (ramp: RampType, speed: real, x: real, timeVar: real)
    requires Coherent(p, a, mm, speed0) && slice > 0.0 && 0.0 <= minimum < mm
    requires OnRamp(p, a, mm, minimum, ramp0, speedIn, x0) && SliceOk(p, minimum, ramp0, timeVar0, slice)
    requires x0 > p.mmComplete || (p.rampType == RampDecel && ramp0 == RampDecel)
    requires Charged(p, a, slice, speed0, mm, dt, ramp0, speedIn, x0)
    ensures Passed(p, a, mm, slice, ramp0, speedIn, x0, timeVar0, ramp, speed, x, timeVar) && Rank(ramp) <= Rank(ramp0)
    ensures Charged(p, a, slice, speed0, mm, dt + timeVar, ramp, EndSpeed(p, ramp, speed, x), x)
    ensures p.mmComplete <= x && (x > p.mmComplete ==> OnRamp(p, a, mm, minimum, ramp, speed, x))
    ensures ramp == ramp0 && x > p.mmComplete ==> timeVar == timeVar0 && GoesOn(p, ramp, speed, x)
    ensures ramp != ramp0 || x == p.mmComplete ==> timeVar >= 0.0
    ensures ramp != ramp0 == RampAccel ==> x == p.accelerateUntil && (ramp == RampDecel ==> p.accelerateUntil == p.decelerateAfter)
    ensures ramp0 != RampAccel || x0 == mm || ramp == RampAccel ==> timeVar <= timeVar0
  {
    hide Charged, AfterAcceleration, RampTime, Quotient, Gain, Square;
    ramp, speed, x, timeVar := ramp0, speedIn, x0, timeVar0;
    match ramp {
      case RampAccel =>
        ramp, speed, x, timeVar := AccelerationPass(p, a, mm, minimum, slice, speed0, speed, x);
      case RampCruise =>
        ramp, x, timeVar := CruisePass(p, a, mm, minimum, slice, speed0, x, timeVar);
      case RampDecel =>
        speed, x, timeVar := DecelerationPass(p, a, mm, minimum, slice, speed0, speed, x, timeVar);
    }
    PassCharged(p, a, mm, minimum, slice, speed0, dt, ramp0, speedIn, x0, timeVar0, ramp, speed, x, timeVar);
  }

  /** Once the acceleration ramp has ended late, it has. */
  lemma StillLate(p: Profile, a: real, slice: real, speed0: real, mm: real, dt: real, ramp0: RampType, speed: real, x0: real, ramp: RampType)
    requires Charged(p, a, slice, speed0, mm, dt, ramp0, speed, x0) && Rank(ramp) <= Rank(ramp0) <= Rank(p.rampType)
    ensures (ramp0 == RampAccel != ramp && x0 != mm) || LateEnd(p, a, slice, speed0, mm, ramp0) ==> LateEnd(p, a, slice, speed0, mm, ramp)
  {
  }

  lemma ChargedTime(p: Profile, a: real, slice: real, speed0: real, mm: real, dt: real, ramp: RampType, speed: real, x: real)
    requires Charged(p, a, slice, speed0, mm, dt, ramp, speed, x)
    ensures dt >= Elapsed(p, a, speed0, mm, ramp, speed, x) && (ramp == RampAccel ==> x >= p.accelerateUntil)
    ensures dt == Elapsed(p, a, speed0, mm, ramp, speed, x) <==> !LateEnd(p, a, slice, speed0, mm, ramp)
  {
  }

  lemma StartsOnRamp(p: Profile, a: real, mm: real, minimum: real, speed0: real)
    requires Coherent(p, a, mm, speed0) && 0.0 <= minimum < mm
    ensures OnRamp(p, a, mm, minimum, p.rampType, speed0, mm) && p.mmComplete <= mm && a > 0.0
    ensures mm > p.mmComplete || p.rampType == RampDecel
  {
  }

  /** The segment has been given another slice than those before because more than the minimum was left after them. */
  ghost predicate Extended(p: Profile, a: real, mm: real, minimum: real, slice: real, speed0: real, given: real) {
    exists dt, ramp, speed, x :: x > minimum && dt >= given - slice && Charged(p, a, slice, speed0, mm, dt, ramp, speed, x)
  }

  /** The segment loop. Travels along profile p for at least one time slice and until at most `minimum`
      is left, or to the end of the profile. It ends for every profile; what is left of the block then
      follows the same profile from the speed reached. The time charged is the time the profile takes, exactly
      unless the acceleration ramp ends after an earlier pass of the segment; then it is more. */
  method TravelSegment(p: Profile, a: real, mm: real, minimum: real, slice: real, speed0: real)
      returns (ramp: RampType, speed: real, x: real, dt: real, ghost given: real)
    requires Coherent(p, a, mm, speed0) && slice > 0.0 && 0.0 <= minimum < mm
    ensures p.mmComplete <= x <= mm && dt >= 0.0 && Rank(ramp) <= Rank(p.rampType)
    ensures x > p.mmComplete ==> x <= minimum && Coherent(p.(rampType := ramp), a, x, speed)
    ensures x > p.mmComplete ==> forall y :: p.mmComplete <= y <= x ==>
      SpeedSqrAt(p.(rampType := ramp), a, x, Square(speed), y) == SpeedSqrAt(p, a, mm, Square(speed0), y)
    ensures ramp == RampAccel ==> x >= p.accelerateUntil
    ensures given >= slice && (x > p.mmComplete ==> dt >= given) && (LateEnd(p, a, slice, speed0, mm, ramp) || dt <= given)
    ensures given > slice ==> Extended(p, a, mm, minimum, slice, speed0, given)
    ensures dt >= Elapsed(p, a, speed0, mm, ramp, EndSpeed(p, ramp, speed, x), x)
    ensures dt == Elapsed(p, a, speed0, mm, ramp, EndSpeed(p, ramp, speed, x), x) <==> !LateEnd(p, a, slice, speed0, mm, ramp)
  {
    hide Charged, Passed, GoesOn, AfterAcceleration, Coherent, OnRamp, SpeedSqrAt, SlicesLeft, LateEnd;
    var dtMax := slice;
    given := slice;
    dt := 0.0;
    var timeVar := dtMax;
    ramp, speed, x := p.rampType, speed0, mm;
    NothingCharged(p, a, slice, mm, speed0);
    StartsOnRamp(p, a, mm, minimum, speed0);
    while true
      invariant timeVar == dtMax - dt && dt >= 0.0 && dtMax > 0.0 && SliceOk(p, minimum, ramp, timeVar, slice)
      invariant OnRamp(p, a, mm, minimum, ramp, speed, x) && Rank(ramp) <= Rank(p.rampType)
      invariant x > p.mmComplete || (p.rampType == RampDecel && ramp == RampDecel && x == mm)
      invariant Charged(p, a, slice, speed0, mm, dt, ramp, speed, x)
      invariant given == dtMax >= slice && (given > slice ==> Extended(p, a, mm, minimum, slice, speed0, given))
      decreases Rank(ramp), SlicesLeft(p, a, slice, ramp, speed, x, timeVar)
    {
      ghost var dt0, ramp0, speedIn, x0, timeVar0 := dt, ramp, speed, x, timeVar;
      ramp, speed, x, timeVar := Pass(p, a, mm, minimum, slice, speed0, dt, ramp, speed, x, timeVar);
      dt := dt + timeVar;
      StillLate(p, a, slice, speed0, mm, dt0, ramp0, speedIn, x0, ramp);
      if dt < dtMax {
        timeVar := dtMax - dt;
      } else if x > minimum {
        dtMax := dtMax + slice;
        timeVar := dtMax - dt;
        given := dtMax;
        assert Charged(p, a, slice, speed0, mm, dt, ramp, EndSpeed(p, ramp, speed, x), x);
      } else {
        break;
      }
      if x <= p.mmComplete {
        break;
      }
      SliceTaken(p, a, mm, slice, dt - dt0, ramp0, speedIn, x0, timeVar0, ramp, speed, x, timeVar);
    }
    if x > p.mmComplete {
      OnRampCoherent(p, a, mm, speed0, minimum, ramp, speed, x);
    }
    ChargedTime(p, a, slice, speed0, mm, dt, ramp, EndSpeed(p, ramp, speed, x), x);
  }

  /** A run of the loop that charges too much: the slow segment above, with at most 5 mm to be left. */
  method SlowSegment() returns (ramp: RampType, speed: real, x: real, dt: real, ghost given: real)
    ensures dt > Elapsed(SLOW_START, 1.0, 1.0, 20.0, ramp, EndSpeed(SLOW_START, ramp, speed, x), x)
  {
    SlowSegmentOverruns();
    ramp, speed, x, dt, given := TravelSegment(SLOW_START, 1.0, 20.0, 5.0, 1.0, 1.0);
  }

  lemma SliceTaken(p: Profile, a: real, mm: real, slice: real, taken: real, ramp0: RampType, speed0: real, x0: real, t0: real,
      ramp: RampType, speed: real, x: real, t: real)
    requires a > 0.0 && slice > 0.0 && Rank(ramp) <= Rank(ramp0)
    requires ramp == ramp0 ==> t == slice
    requires Passed(p, a, mm, slice, ramp0, speed0, x0, t0, ramp, speed, x, taken)
    requires ramp == ramp0 ==> GoesOn(p, ramp, speed, x)
    ensures Rank(ramp) < Rank(ramp0)
         || (ramp == ramp0 && SlicesLeft(p, a, slice, ramp, speed, x, t) < SlicesLeft(p, a, slice, ramp0, speed0, x0, t0))
  {
    hide AfterAcceleration, RampTime, Quotient, Fits;
    if ramp == ramp0 {
      MulSign(a, slice);
      MulSign(slice, p.maximumSpeed);
      var d, u, w := PerSlice(p, a, slice, ramp), Room(p, a, ramp, speed0, x0, t0), Room(p, a, ramp, speed, x, t);
      assert u >= 0.0 && w == u - d;
      FitsDecrease(u, d);
    }
  }
}
