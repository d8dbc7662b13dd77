/** The velocity profile of a planner block, as a function of the distance left in the block. */
module VelocityProfile {
  import opened Reals

  datatype RampType = RampAccel | RampCruise | RampDecel

  /** The profile fields of the stepper's `prep` struct. Distances are measured from the block end. */
  datatype Profile = Profile(
    rampType: RampType,
    mmComplete: real,
    accelerateUntil: real,
    decelerateAfter: real,
    maximumSpeed: real,
    exitSpeed: real)

  function Square(x: real): real { x * x }

  /** The square root of every number that has one. */
  ghost predicate IsRoot(root: real -> real) {
    forall x :: x >= 0.0 ==> root(x) >= 0.0 && Square(root(x)) == x
  }

  /** The change of squared speed that acceleration a can make over x millimetres. */
  function Gain(a: real, x: real): real { 2.0 * a * x }

  /** A block that can be entered at `entry` and left at `exit` (squared speeds) within its nominal
      speed and acceleration a over mm millimetres. */
  ghost predicate Reachable(entry: real, exit: real, nominal: real, a: real, mm: real) {
    && a > 0.0 && mm > 0.0 && nominal > 0.0
    && 0.0 <= entry <= nominal && 0.0 <= exit <= nominal
    && exit <= entry + Gain(a, mm) && entry <= exit + Gain(a, mm)
  }

  /** Squared speed along profile p with x millimetres left, given speed `speedSqr` at mm. */
  ghost function SpeedSqrAt(p: Profile, a: real, mm: real, speedSqr: real, x: real): real {
    if p.rampType == RampDecel then speedSqr - Gain(a, mm) + Gain(a, x)
    else if p.rampType == RampAccel && x >= p.accelerateUntil then speedSqr + Gain(a, mm) - Gain(a, x)
    else if x >= p.decelerateAfter then Square(p.maximumSpeed)
    else Square(p.maximumSpeed) - Gain(a, p.decelerateAfter) + Gain(a, x)
  }

  /** The junctions of the profile fit: what the segment loop relies on. */
  ghost predicate Coherent(p: Profile, a: real, mm: real, speed: real) {
    && a > 0.0 && mm > 0.0 && 0.0 <= p.mmComplete <= mm && p.exitSpeed >= 0.0 && speed >= 0.0
    && (p.mmComplete > 0.0 ==> p.exitSpeed == 0.0 && p.rampType == RampDecel)
    && match p.rampType
       case RampAccel =>
         && 0.0 <= p.accelerateUntil <= mm && 0.0 < p.maximumSpeed && speed <= p.maximumSpeed
         && Square(speed) + Gain(a, mm) == Square(p.maximumSpeed) + Gain(a, p.accelerateUntil)
         && (if p.accelerateUntil == 0.0 then p.maximumSpeed == p.exitSpeed
             else 0.0 <= p.decelerateAfter <= p.accelerateUntil
                  && Square(p.maximumSpeed) == Square(p.exitSpeed) + Gain(a, p.decelerateAfter))
       case RampCruise =>
         && 0.0 <= p.decelerateAfter <= mm && 0.0 < p.maximumSpeed == speed
         && Square(p.maximumSpeed) == Square(p.exitSpeed) + Gain(a, p.decelerateAfter)
       case RampDecel =>
         Square(speed) + Gain(a, p.mmComplete) == Square(p.exitSpeed) + Gain(a, mm)
  }

  /** Neither the present speed nor a maximum still to be reached exceeds the nominal speed. */
  ghost predicate WithinNominal(p: Profile, speed: real, nominal: real) {
    Square(speed) <= nominal && (p.rampType != RampDecel ==> Square(p.maximumSpeed) <= nominal)
  }

  lemma MulSign(x: real, y: real)
    requires x > 0.0
    ensures y > 0.0 <==> x * y > 0.0
    ensures y < 0.0 <==> x * y < 0.0
  {
    if y > 0.0 {
      assert x * y > 0.0;
    } else if y < 0.0 {
      assert x * (-y) > 0.0;
    }
  }

  lemma SquareMonotone(x: real, y: real)
    requires 0.0 <= x && 0.0 <= y
    ensures Square(x) <= Square(y) <==> x <= y
  {
    if x < y {
      SquareStrict(x, y);
    } else if y < x {
      SquareStrict(y, x);
    }
  }

  lemma SquareStrict(x: real, y: real)
    requires 0.0 <= x < y
    ensures Square(x) < Square(y)
  {
    hide Square;
    SquareOfSum(x, y - x);
    assert x + (y - x) == y;
  }

  /** What the square grows by when d is added to x. */
  function Growth(x: real, d: real): real {
    Times(d, d + 2.0 * x)
  }

  lemma GrowthPositive(x: real, d: real)
    requires x >= 0.0 && d > 0.0
    ensures Growth(x, d) > 0.0
  {
    hide Times;
    TimesPositive(d, d + 2.0 * x);
  }

  lemma SquareGrows(x: real, d: real)
    ensures Square(x + d) == Square(x) + Growth(x, d)
  {
  }

  lemma SquareOfSum(x: real, d: real)
    requires x >= 0.0 && d > 0.0
    ensures Square(x) < Square(x + d)
  {
    hide Square, Growth;
    GrowthPositive(x, d);
    SquareGrows(x, d);
  }

  lemma GainMonotone(a: real, x: real, y: real)
    requires a > 0.0
    ensures Gain(a, x) <= Gain(a, y) <==> x <= y
    ensures Gain(a, 0.0) == 0.0
  {
    assert Gain(a, y) - Gain(a, x) == 2.0 * a * (y - x);
    MulSign(2.0 * a, y - x);
  }

  /** A coherent profile runs continuously from the current speed to the exit speed, never changes
      squared speed by more than 2 * a per millimetre, and never exceeds a nominal speed that bounds
      its own maximum and its start. */
  lemma CoherentTraces(p: Profile, a: real, mm: real, speed: real, nominal: real, x: real, y: real)
    requires Coherent(p, a, mm, speed) && p.mmComplete <= x <= y <= mm
    requires WithinNominal(p, speed, nominal)
    ensures SpeedSqrAt(p, a, mm, Square(speed), mm) == Square(speed)
    ensures SpeedSqrAt(p, a, mm, Square(speed), p.mmComplete) == Square(p.exitSpeed)
    ensures SpeedSqrAt(p, a, mm, Square(speed), x) <= SpeedSqrAt(p, a, mm, Square(speed), y) + Gain(a, y) - Gain(a, x)
    ensures SpeedSqrAt(p, a, mm, Square(speed), y) <= SpeedSqrAt(p, a, mm, Square(speed), x) + Gain(a, y) - Gain(a, x)
    ensures 0.0 <= SpeedSqrAt(p, a, mm, Square(speed), x) <= nominal
  {
    GainMonotone(a, x, y);
    GainMonotone(a, y, mm);
    GainMonotone(a, 0.0, x);
    GainMonotone(a, p.mmComplete, x);
    GainMonotone(a, x, p.accelerateUntil);
    GainMonotone(a, y, p.accelerateUntil);
    GainMonotone(a, x, p.decelerateAfter);
    GainMonotone(a, y, p.decelerateAfter);
    GainMonotone(a, p.decelerateAfter, p.accelerateUntil);
    SquareMonotone(0.0, p.exitSpeed);
  }

  // ---- The fastest profile ----

  function Least(x: real, y: real, z: real): real {
    if x <= y && x <= z then x else if y <= z then y else z
  }

  /** The squared speed is everywhere the nominal one, or what the acceleration allows since the start, or what
      still brakes to the exit: the least of the three. */
  ghost predicate Fastest(p: Profile, a: real, mm: real, entry: real, exit: real, nominal: real) {
    forall x :: 0.0 <= x <= mm ==> SpeedSqrAt(p, a, mm, entry, x) == Least(nominal, entry + Gain(a, mm) - Gain(a, x), exit + Gain(a, x))
  }

  /** Any way to drive a block: squared speeds from entry to exit, within the nominal speed and acceleration a. */
  ghost predicate Drives(curve: real -> real, a: real, mm: real, entry: real, exit: real, nominal: real) {
    && curve(mm) <= entry && curve(0.0) <= exit
    && (forall x :: 0.0 <= x <= mm ==> curve(x) <= nominal)
    && forall x, y :: 0.0 <= x <= y <= mm ==> WithinAcceleration(curve, a, x, y)
  }

  ghost predicate WithinAcceleration(curve: real -> real, a: real, x: real, y: real) {
    curve(x) <= curve(y) + Gain(a, y) - Gain(a, x) && curve(y) <= curve(x) + Gain(a, y) - Gain(a, x)
  }

  /** None is faster than the fastest profile, at any distance from the end. */
  lemma NoneFaster(p: Profile, a: real, mm: real, entry: real, exit: real, nominal: real, curve: real -> real, x: real)
    requires Fastest(p, a, mm, entry, exit, nominal) && Drives(curve, a, mm, entry, exit, nominal) && 0.0 <= x <= mm
    ensures curve(x) <= SpeedSqrAt(p, a, mm, entry, x)
  {
    assert WithinAcceleration(curve, a, x, mm) && WithinAcceleration(curve, a, 0.0, x);
    GainZero(a);
  }

  lemma GainZero(a: real)
    ensures Gain(a, 0.0) == 0.0
  {
  }

  /** What is left of the fastest profile at x is the fastest profile from there. */
  lemma FastestContinues(p: Profile, q: Profile, a: real, mm: real, entry: real, exit: real, nominal: real, x: real, speedSqr: real)
    requires a > 0.0 && Fastest(p, a, mm, entry, exit, nominal) && 0.0 <= x <= mm
    requires forall y :: 0.0 <= y <= x ==> SpeedSqrAt(q, a, x, speedSqr, y) == SpeedSqrAt(p, a, mm, entry, y)
    requires speedSqr == SpeedSqrAt(p, a, mm, entry, x)
    ensures Fastest(q, a, x, speedSqr, exit, nominal)
  {
    hide SpeedSqrAt, Gain;
    forall y | 0.0 <= y <= x
      ensures SpeedSqrAt(q, a, x, speedSqr, y) == Least(nominal, speedSqr + Gain(a, x) - Gain(a, y), exit + Gain(a, y))
    {
      GainMonotone(a, y, x);
    }
  }

  /** A maximum speed that is not nominal is only a point where acceleration meets deceleration. */
  ghost predicate Peaks(p: Profile, nominal: real) {
    && (p.rampType == RampAccel && p.accelerateUntil > 0.0 && p.accelerateUntil != p.decelerateAfter ==> Square(p.maximumSpeed) == nominal)
    && (p.rampType == RampCruise ==> Square(p.maximumSpeed) == nominal)
  }

  lemma PeakIsFastest(p: Profile, a: real, mm: real, speed: real, nominal: real)
    requires Coherent(p, a, mm, speed) && p.mmComplete == 0.0 && WithinNominal(p, speed, nominal) && Peaks(p, nominal)
    ensures Fastest(p, a, mm, Square(speed), Square(p.exitSpeed), nominal)
  {
    forall x | 0.0 <= x <= mm
      ensures SpeedSqrAt(p, a, mm, Square(speed), x)
           == Least(nominal, Square(speed) + Gain(a, mm) - Gain(a, x), Square(p.exitSpeed) + Gain(a, x))
    {
      FastestAt(p, a, mm, speed, nominal, x);
    }
  }

  lemma FastestAt(p: Profile, a: real, mm: real, speed: real, nominal: real, x: real)
    requires Coherent(p, a, mm, speed) && p.mmComplete == 0.0 && WithinNominal(p, speed, nominal) && Peaks(p, nominal)
    requires 0.0 <= x <= mm
    ensures SpeedSqrAt(p, a, mm, Square(speed), x)
         == Least(nominal, Square(speed) + Gain(a, mm) - Gain(a, x), Square(p.exitSpeed) + Gain(a, x))
  {
    GainMonotone(a, x, mm);
    GainMonotone(a, 0.0, x);
    GainMonotone(a, x, p.accelerateUntil);
    GainMonotone(a, p.accelerateUntil, x);
    GainMonotone(a, x, p.decelerateAfter);
    GainMonotone(a, p.decelerateAfter, x);
    GainMonotone(a, p.decelerateAfter, p.accelerateUntil);
    hide Gain, Square;
  }

  /** A forced deceleration is the slowest profile: nothing within the acceleration loses more speed. */
  lemma HoldIsSlowest(p: Profile, a: real, mm: real, speed: real, curve: real -> real, x: real)
    requires p.rampType == RampDecel && Coherent(p, a, mm, speed) && p.mmComplete <= x <= mm
    requires curve(mm) == Square(speed) && WithinAcceleration(curve, a, x, mm)
    ensures SpeedSqrAt(p, a, mm, Square(speed), x) <= curve(x)
  {
  }

  /** The distance over which acceleration a changes the squared speed by t. */
  function DistanceFor(a: real, t: real): (d: real)
    requires a > 0.0
    ensures Gain(a, d) == t
  {
    var inv2Accel := 0.5 / a;
    assert Gain(a, inv2Accel * t) == (2.0 * a * inv2Accel) * t;
    inv2Accel * t
  }

  /** Where an acceleration from `entry` meets a deceleration to `exit`, measured from the block end. */
  function Intersect(entry: real, exit: real, a: real, mm: real): real
    requires a > 0.0
  {
    0.5 * (mm + DistanceFor(a, entry - exit))
  }

  /** Profile of a block in normal operation. The three roots are nonnegative square roots of the
      nominal speed squared, the exit speed squared and the peak speed squared. `prep` holds the
      fields of the previous profile, some of which stay in place. */
  method ComputeProfile(prep: Profile, entry: real, nominal: real, a: real, mm: real, currentSpeed: real,
      exitSpeed: real, nominalSpeed: real, peakSpeed: real) returns (p: Profile)
    requires currentSpeed >= 0.0 && Square(currentSpeed) == entry
    requires exitSpeed >= 0.0 && Reachable(entry, Square(exitSpeed), nominal, a, mm)
    requires nominalSpeed >= 0.0 && Square(nominalSpeed) == nominal
    requires peakSpeed >= 0.0
    requires Square(peakSpeed) == Gain(a, Intersect(entry, Square(exitSpeed), a, mm)) + Square(exitSpeed)
    ensures Coherent(p, a, mm, currentSpeed) && p.exitSpeed == exitSpeed && p.mmComplete == 0.0
    ensures WithinNominal(p, currentSpeed, nominal) && Fastest(p, a, mm, entry, Square(exitSpeed), nominal)
  {
    p := prep.(mmComplete := 0.0, rampType := RampAccel, accelerateUntil := mm, exitSpeed := exitSpeed);
    var exitSpeedSqr := Square(exitSpeed);
    var intersect := Intersect(entry, exitSpeedSqr, a, mm);
    IntersectGain(entry, exitSpeedSqr, a, mm);
    if intersect > 0.0 {
      if intersect < mm {
        p := p.(decelerateAfter := DistanceFor(a, nominal - exitSpeedSqr));
        if p.decelerateAfter < intersect {
          p := p.(maximumSpeed := nominalSpeed);
          if entry == nominal {
            p := p.(rampType := RampCruise);
            CruiseShape(p, a, mm, currentSpeed, intersect);
          } else {
            p := p.(accelerateUntil := p.accelerateUntil - DistanceFor(a, nominal - entry));
            TrapezoidShape(p, a, mm, currentSpeed, intersect, DistanceFor(a, nominal - entry));
          }
        } else {
          var cut := p.decelerateAfter;
          p := p.(accelerateUntil := intersect, decelerateAfter := intersect, maximumSpeed := peakSpeed);
          TriangleShape(p, a, mm, currentSpeed, cut, nominal);
        }
      } else {
        p := p.(rampType := RampDecel, maximumSpeed := currentSpeed);
        GainMonotone(a, mm, intersect);
      }
    } else {
      p := p.(accelerateUntil := 0.0, maximumSpeed := exitSpeed);
      AccelerationShape(p, a, mm, currentSpeed, intersect);
    }
    PeakIsFastest(p, a, mm, currentSpeed, nominal);
  }

  /** Profile of a block while a feed hold, motion cancel or door stop is decelerating. `exitRoot` is the
      root of what is left of the entry speed squared when the block is too short to stop in. */
  method ComputeHoldProfile(prep: Profile, entry: real, a: real, mm: real, currentSpeed: real, exitRoot: real)
      returns (p: Profile)
    requires a > 0.0 && mm > 0.0 && currentSpeed >= 0.0 && Square(currentSpeed) == entry
    requires exitRoot >= 0.0 && (entry >= Gain(a, mm) ==> Square(exitRoot) == entry - Gain(a, mm))
    ensures p.rampType == RampDecel && Coherent(p, a, mm, currentSpeed)
    ensures p.mmComplete > 0.0 <==> entry < Gain(a, mm)
  {
    p := prep.(mmComplete := 0.0, rampType := RampDecel);
    var decelDist := mm - DistanceFor(a, entry);
    GainSubtract(a, mm, DistanceFor(a, entry));
    GainMonotone(a, 0.0, decelDist);
    GainMonotone(a, decelDist, 0.0);
    GainMonotone(a, decelDist, mm);
    SquareMonotone(0.0, currentSpeed);
    if decelDist < 0.0 {
      p := p.(exitSpeed := exitRoot);
    } else {
      p := p.(mmComplete := decelDist, exitSpeed := 0.0);
    }
  }

  lemma CruiseShape(p: Profile, a: real, mm: real, speed: real, intersect: real)
    requires a > 0.0 && mm > 0.0 && p.rampType == RampCruise && p.mmComplete == 0.0 && p.exitSpeed >= 0.0
    requires speed >= 0.0 && p.maximumSpeed >= 0.0 && Square(speed) == Square(p.maximumSpeed) > 0.0
    requires Gain(a, p.decelerateAfter) == Square(p.maximumSpeed) - Square(p.exitSpeed) >= 0.0
    requires p.decelerateAfter < intersect < mm
    ensures Coherent(p, a, mm, speed)
  {
    SquareMonotone(speed, p.maximumSpeed);
    SquareMonotone(p.maximumSpeed, speed);
    GainMonotone(a, 0.0, p.decelerateAfter);
  }

  lemma TrapezoidShape(p: Profile, a: real, mm: real, speed: real, intersect: real, ramp: real)
    requires a > 0.0 && mm > 0.0 && p.rampType == RampAccel && p.mmComplete == 0.0 && p.exitSpeed >= 0.0
    requires speed >= 0.0 && p.maximumSpeed >= 0.0 && Square(speed) < Square(p.maximumSpeed) && Square(speed) >= 0.0
    requires Gain(a, p.decelerateAfter) == Square(p.maximumSpeed) - Square(p.exitSpeed) >= 0.0
    requires p.accelerateUntil == mm - ramp && Gain(a, ramp) == Square(p.maximumSpeed) - Square(speed)
    requires 2.0 * Gain(a, intersect) == Gain(a, mm) + Square(speed) - Square(p.exitSpeed)
    requires p.decelerateAfter < intersect
    ensures Coherent(p, a, mm, speed)
  {
    SquareMonotone(speed, p.maximumSpeed);
    SquareMonotone(p.maximumSpeed, speed);
    GainMonotone(a, 0.0, p.decelerateAfter);
    GainMonotone(a, 0.0, ramp);
    GainMonotone(a, intersect, p.decelerateAfter);
    GainSubtract(a, mm, ramp);
    GainMonotone(a, p.accelerateUntil, p.decelerateAfter);
    GainMonotone(a, p.accelerateUntil, mm);
  }

  lemma TriangleShape(p: Profile, a: real, mm: real, speed: real, cut: real, nominal: real)
    requires a > 0.0 && p.rampType == RampAccel && p.mmComplete == 0.0 && p.exitSpeed >= 0.0
    requires speed >= 0.0 && p.maximumSpeed >= 0.0
    requires 0.0 < p.accelerateUntil == p.decelerateAfter < mm && p.accelerateUntil <= cut
    requires Square(p.maximumSpeed) == Gain(a, p.accelerateUntil) + Square(p.exitSpeed)
    requires 2.0 * Gain(a, p.accelerateUntil) == Gain(a, mm) + Square(speed) - Square(p.exitSpeed)
    requires Gain(a, cut) == nominal - Square(p.exitSpeed)
    ensures Coherent(p, a, mm, speed) && Square(p.maximumSpeed) <= nominal
  {
    GainMonotone(a, p.accelerateUntil, cut);
    GainMonotone(a, p.accelerateUntil, 0.0);
    GainMonotone(a, mm, p.accelerateUntil);
    SquareMonotone(speed, p.maximumSpeed);
    SquareMonotone(0.0, p.exitSpeed);
    SquareMonotone(p.maximumSpeed, 0.0);
  }

  lemma AccelerationShape(p: Profile, a: real, mm: real, speed: real, intersect: real)
    requires a > 0.0 && mm > 0.0 && p.rampType == RampAccel && p.mmComplete == 0.0 && speed >= 0.0 && p.exitSpeed >= 0.0
    requires p.accelerateUntil == 0.0 && p.maximumSpeed == p.exitSpeed && intersect <= 0.0
    requires 2.0 * Gain(a, intersect) == Gain(a, mm) + Square(speed) - Square(p.exitSpeed)
    requires Square(p.exitSpeed) <= Square(speed) + Gain(a, mm)
    ensures Coherent(p, a, mm, speed)
  {
    GainMonotone(a, 0.0, intersect);
    GainMonotone(a, mm, 0.0);
    SquareMonotone(0.0, speed);
    SquareMonotone(speed, p.exitSpeed);
    SquareMonotone(p.exitSpeed, 0.0);
  }

  lemma GainSubtract(a: real, x: real, y: real)
    ensures Gain(a, x - y) == Gain(a, x) - Gain(a, y)
  {
  }

  lemma IntersectGain(entry: real, exit: real, a: real, mm: real)
    requires a > 0.0
    ensures 2.0 * Gain(a, Intersect(entry, exit, a, mm)) == Gain(a, mm) + entry - exit
  {
    var d := DistanceFor(a, entry - exit);
    assert Gain(a, mm + d) == Gain(a, mm) + Gain(a, d);
  }
}
