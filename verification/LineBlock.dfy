/** Turning a straight line into a planner block: its length and direction, the fastest rate and strongest
    acceleration along it that no axis exceeds, and the speed at which its corner may be taken. */
module LineBlock {
  import opened CoreXY
  import opened Planner
  import opened Reals
  import opened SpeedPlan
  import opened VelocityProfile
  import M = StepperMachine

  const SOME_LARGE_VALUE: real := 100000000000000000000000000000000000000.0
  const MINIMUM_FEED_RATE: real := 1.0

  datatype Settings = Settings(stepsPerMm: Vec, maxRate: Vec, acceleration: Vec, junctionDeviation: real, inv: Invert)

  predicate Positive(v: Vec) {
    v[0] > 0.0 && v[1] > 0.0 && v[2] > 0.0
  }

  predicate NotNegative(v: Vec) {
    v[0] >= 0.0 && v[1] >= 0.0 && v[2] >= 0.0
  }

  predicate Usable(settings: Settings) {
    Positive(settings.stepsPerMm) && NotNegative(settings.maxRate) && NotNegative(settings.acceleration) && settings.junctionDeviation >= 0.0
  }

  // ---- Rate and acceleration along the line ----

  /** At this rate along the line, no axis exceeds its own limit. */
  predicate WithinLimits(unit: Vec, limits: Vec, rate: real) {
    forall i :: 0 <= i < 3 ==> AxisWithin(unit, limits, rate, i)
  }

  predicate AxisWithin(unit: Vec, limits: Vec, rate: real, i: nat)
    requires i < 3
  {
    Times(rate, RealAbs(unit[i])) <= limits[i]
  }

  /** The axis runs exactly at its limit. */
  predicate AxisAtLimit(unit: Vec, limits: Vec, rate: real, i: nat)
    requires i < 3
  {
    unit[i] != 0.0 && Times(rate, RealAbs(unit[i])) == limits[i]
  }

  /** The fastest rate within the limits, up to the one asked for. */
  ghost predicate Greatest(unit: Vec, limits: Vec, asked: real, rate: real) {
    && 0.0 <= rate <= asked && WithinLimits(unit, limits, rate)
    && (rate == asked || exists i :: 0 <= i < 3 && AxisAtLimit(unit, limits, rate, i))
  }

  /** Nothing faster is within the limits. */
  lemma NothingFaster(unit: Vec, limits: Vec, asked: real, rate: real, other: real)
    requires Greatest(unit, limits, asked, rate) && other <= asked && WithinLimits(unit, limits, other)
    ensures other <= rate
  {
    if rate != asked {
      var i :| 0 <= i < 3 && AxisAtLimit(unit, limits, rate, i);
      assert AxisWithin(unit, limits, other, i);
      Ordered(other, rate, RealAbs(unit[i]));
    }
  }

  lemma Ordered(x: real, y: real, a: real)
    requires a > 0.0 && Times(x, a) <= Times(y, a)
    ensures x <= y
  {
  }

  /** The rate at which an axis is at its limit. */
  function Most(limit: real, u: real): real
    requires u != 0.0
  {
    limit * RealAbs(1.0 / u)
  }

  lemma LimitMet(limit: real, u: real)
    requires u != 0.0 && limit >= 0.0
    ensures Most(limit, u) >= 0.0 && (limit > 0.0 ==> Most(limit, u) > 0.0) && Times(Most(limit, u), RealAbs(u)) == limit
  {
  }

  lemma Slower(x: real, y: real, a: real)
    requires x <= y && a >= 0.0
    ensures Times(x, a) <= Times(y, a)
  {
  }

  /** One axis limits the rate so far. */
  method LimitAxis(unit: Vec, limits: Vec, asked: real, rate: real, idx: nat) returns (r: real)
    requires idx < 3 && unit[idx] != 0.0 && limits[idx] >= 0.0 && 0.0 <= rate <= asked
    requires forall j :: 0 <= j < idx ==> AxisWithin(unit, limits, rate, j)
    requires rate == asked || exists j :: 0 <= j < idx && AxisAtLimit(unit, limits, rate, j)
    ensures 0.0 <= r <= rate && (0.0 < rate && 0.0 < limits[idx] ==> 0.0 < r)
    ensures forall j :: 0 <= j <= idx ==> AxisWithin(unit, limits, r, j)
    ensures r == asked || exists j :: 0 <= j <= idx && AxisAtLimit(unit, limits, r, j)
  {
    hide Times, RealAbs, Most;
    var most := Most(limits[idx], unit[idx]);
    LimitMet(limits[idx], unit[idx]);
    r := if rate < most then rate else most;
    forall j | 0 <= j <= idx ensures AxisWithin(unit, limits, r, j) {
      if j < idx {
        assert AxisWithin(unit, limits, rate, j);
        Slower(r, rate, RealAbs(unit[j]));
      } else {
        Slower(r, most, RealAbs(unit[idx]));
      }
    }
    if r != rate {
      assert AxisAtLimit(unit, limits, r, idx);
    }
  }

  function Dot(a: Vec, b: Vec, n: nat): real
    requires n <= 3
  {
    if n == 0 then 0.0 else Dot(a, b, n - 1) + a[n - 1] * b[n - 1]
  }

  lemma ZeroWithin(unit: Vec, limits: Vec, rate: real, i: nat)
    requires i < 3 && unit[i] == 0.0 && limits[i] >= 0.0
    ensures AxisWithin(unit, limits, rate, i)
  {
  }

  /** The limiting loop: the line's direction completed, its rate and acceleration, and the cosine of the
      angle it makes with the line before, reversed. */
  method LimitRates(numerators: Vec, millimeters: real, feedRate: real, previous: Vec, settings: Settings)
    returns (unit: Vec, rate: real, acceleration: real, cosTheta: real)
    requires millimeters > 0.0 && feedRate > 0.0 && Usable(settings)
    ensures forall i :: 0 <= i < 3 ==> unit[i] == Times(numerators[i], 1.0 / millimeters)
    ensures Greatest(unit, settings.maxRate, feedRate, rate)
    ensures Greatest(unit, settings.acceleration, SOME_LARGE_VALUE, acceleration)
    ensures (Positive(settings.maxRate) ==> rate > 0.0) && (Positive(settings.acceleration) ==> acceleration > 0.0) && acceleration >= 0.0
    ensures cosTheta == -Dot(previous, unit, 3)
  {
    hide Times, AxisWithin, AxisAtLimit;
    var inverse := 1.0 / millimeters;
    unit := [Times(numerators[0], inverse), Times(numerators[1], inverse), Times(numerators[2], inverse)];
    rate, acceleration, cosTheta := feedRate, SOME_LARGE_VALUE, 0.0;
    var idx: nat := 0;
    while idx < 3
      invariant idx <= 3 && 0.0 <= rate <= feedRate && 0.0 <= acceleration <= SOME_LARGE_VALUE
      invariant (Positive(settings.maxRate) ==> rate > 0.0) && (Positive(settings.acceleration) ==> acceleration > 0.0)
      invariant forall j :: 0 <= j < idx ==> AxisWithin(unit, settings.maxRate, rate, j)
      invariant rate == feedRate || exists j :: 0 <= j < idx && AxisAtLimit(unit, settings.maxRate, rate, j)
      invariant forall j :: 0 <= j < idx ==> AxisWithin(unit, settings.acceleration, acceleration, j)
      invariant acceleration == SOME_LARGE_VALUE || exists j :: 0 <= j < idx && AxisAtLimit(unit, settings.acceleration, acceleration, j)
      invariant cosTheta == -Dot(previous, unit, idx)
    {
      if unit[idx] != 0.0 {
        rate := LimitAxis(unit, settings.maxRate, feedRate, rate, idx);
        acceleration := LimitAxis(unit, settings.acceleration, SOME_LARGE_VALUE, acceleration, idx);
        cosTheta := cosTheta - previous[idx] * unit[idx];
      } else {
        ZeroWithin(unit, settings.maxRate, rate, idx);
        ZeroWithin(unit, settings.acceleration, acceleration, idx);
        assert previous[idx] * unit[idx] == 0.0;
      }
      idx := idx + 1;
    }
  }

  // ---- The corner ----

  /** The corner's cosine, kept away from a straight line. */
  function Bent(cosTheta: real): real {
    if cosTheta < -0.999999 then -0.999999 else cosTheta
  }

  /** The squared speed through a corner; sinHalf is the sine of half its angle. */
  function JunctionSpeedSqr(cosTheta: real, sinHalf: real, acceleration: real, deviation: real): (v: real)
    requires cosTheta <= 0.999999 ==> sinHalf != 1.0
    ensures v >= 0.0
  {
    if cosTheta > 0.999999 then 0.0
    else
      var v := acceleration * deviation * sinHalf / (1.0 - sinHalf);
      if v < 0.0 then 0.0 else v
  }

  /** The sine of half an angle, given its cosine. */
  predicate HalfAngle(cosTheta: real, sinHalf: real) {
    sinHalf > 0.0 && Square(sinHalf) == 0.5 * (1.0 - cosTheta)
  }

  lemma HalfBelowOne(cosTheta: real, sinHalf: real)
    requires sinHalf >= 0.0 && Square(sinHalf) == 0.5 * (1.0 - cosTheta) && -1.0 < cosTheta < 1.0
    ensures 0.0 < sinHalf < 1.0 && HalfAngle(cosTheta, sinHalf)
  {
    if sinHalf >= 1.0 {
      Scales(1.0, sinHalf, sinHalf);
    }
  }

  /** The circle tangent to both lines of a corner that passes at `deviation` from the corner itself. */
  predicate CornerRadius(sinHalf: real, deviation: real, radius: real)
    requires sinHalf > 0.0
  {
    radius / sinHalf == radius + deviation
  }

  lemma RadiusTimes(sinHalf: real, deviation: real, radius: real)
    requires 0.0 < sinHalf < 1.0 && CornerRadius(sinHalf, deviation, radius)
    ensures deviation * sinHalf == radius * (1.0 - sinHalf)
  {
  }

  /** There is one. */
  lemma RadiusExists(sinHalf: real, deviation: real) returns (radius: real)
    requires 0.0 < sinHalf < 1.0
    ensures CornerRadius(sinHalf, deviation, radius)
  {
    var d := 1.0 - sinHalf;
    radius := deviation * sinHalf / d;
    assert radius * d == deviation * sinHalf;
    assert radius == (radius + deviation) * sinHalf;
    Cancel(radius, radius + deviation, sinHalf);
  }

  /** The squared speed at which the corner's circle takes the whole acceleration. */
  ghost predicate RoundsCorner(cosTheta: real, acceleration: real, deviation: real, speedSqr: real) {
    exists sinHalf, radius :: HalfAngle(cosTheta, sinHalf) && CornerRadius(sinHalf, deviation, radius) && speedSqr == Times(acceleration, radius)
  }

  /** The squared speed allowed through a corner, by the cosine of the angle between the line before, turned back,
      and the line: none where the path doubles back, and nearly straight on no more than at -0.999999. */
  ghost predicate TakesCorner(cosTheta: real, acceleration: real, deviation: real, speedSqr: real) {
    if cosTheta > 0.999999 then speedSqr == 0.0
    else RoundsCorner(if cosTheta < -0.999999 then -0.999999 else cosTheta, acceleration, deviation, speedSqr)
  }

  method Corner(cosTheta: real, acceleration: real, deviation: real, root: real -> real) returns (junctionSpeedSqr: real)
    requires IsRoot(root) && acceleration >= 0.0 && deviation >= 0.0
    ensures junctionSpeedSqr >= 0.0 && TakesCorner(cosTheta, acceleration, deviation, junctionSpeedSqr)
  {
    hide Square, CornerRadius, JunctionSpeedSqr, Times;
    if cosTheta > 0.999999 {
      return 0.0;
    }
    var sinHalf := root(0.5 * (1.0 - Bent(cosTheta)));
    HalfBelowOne(Bent(cosTheta), sinHalf);
    junctionSpeedSqr := JunctionSpeedSqr(cosTheta, sinHalf, acceleration, deviation);
    ghost var radius := RadiusExists(sinHalf, deviation);
    RadiusSign(sinHalf, deviation, radius);
    CornerSpeed(cosTheta, sinHalf, acceleration, deviation, radius);
  }

  /** The corner speed is the one whose centripetal acceleration is the block's own, on the circle that is
      tangent to both lines and passes the corner at the junction deviation. */
  lemma CornerCircle(cosTheta: real, sinHalf: real, acceleration: real, deviation: real, radius: real, speedSqr: real)
    requires -0.999999 <= cosTheta <= 0.999999 && acceleration >= 0.0 && deviation >= 0.0
    requires TakesCorner(cosTheta, acceleration, deviation, speedSqr)
    requires HalfAngle(cosTheta, sinHalf) && CornerRadius(sinHalf, deviation, radius)
    ensures radius >= 0.0 && speedSqr == Times(acceleration, radius)
  {
    hide Square, CornerRadius, Times;
    var taken, other :| HalfAngle(cosTheta, taken) && CornerRadius(taken, deviation, other) && speedSqr == Times(acceleration, other);
    HalfBelowOne(cosTheta, sinHalf);
    SquareMonotone(taken, sinHalf);
    SquareMonotone(sinHalf, taken);
    RadiusSign(sinHalf, deviation, radius);
    RadiusGrows(sinHalf, sinHalf, deviation, radius, other);
    RadiusGrows(sinHalf, sinHalf, deviation, other, radius);
  }

  /** The sharper the corner, the slower it is taken, and strictly so between the two limits. */
  lemma SharperIsSlower(cosTheta: real, sharper: real, acceleration: real, deviation: real, speedSqr: real, slower: real)
    requires cosTheta <= sharper && acceleration >= 0.0 && deviation >= 0.0
    requires TakesCorner(cosTheta, acceleration, deviation, speedSqr) && TakesCorner(sharper, acceleration, deviation, slower)
    ensures 0.0 <= slower <= speedSqr
    ensures -0.999999 <= cosTheta < sharper && cosTheta <= 0.999999 && acceleration > 0.0 && deviation > 0.0 ==> slower < speedSqr
  {
    hide Square, CornerRadius, Times, RoundsCorner;
    if sharper > 0.999999 {
      if cosTheta <= 0.999999 {
        RoundedSpeed(Bent(cosTheta), acceleration, deviation, speedSqr);
      }
    } else {
      RoundedSlower(Bent(cosTheta), Bent(sharper), acceleration, deviation, speedSqr, slower);
      RoundedSpeed(Bent(sharper), acceleration, deviation, slower);
    }
  }

  lemma RoundedSpeed(cosTheta: real, acceleration: real, deviation: real, speedSqr: real)
    requires -1.0 < cosTheta < 1.0 && acceleration >= 0.0 && deviation >= 0.0 && RoundsCorner(cosTheta, acceleration, deviation, speedSqr)
    ensures speedSqr >= 0.0 && (acceleration > 0.0 && deviation > 0.0 ==> speedSqr > 0.0)
  {
    hide Square, CornerRadius, Times;
    var taken, radius :| HalfAngle(cosTheta, taken) && CornerRadius(taken, deviation, radius) && speedSqr == Times(acceleration, radius);
    HalfBelowOne(cosTheta, taken);
    RadiusSign(taken, deviation, radius);
    Slower(0.0, radius, acceleration);
    TimesOrder(acceleration, 0.0, radius);
  }

  lemma RoundedSlower(c: real, sharper: real, acceleration: real, deviation: real, speedSqr: real, slower: real)
    requires -1.0 < c <= sharper < 1.0 && acceleration >= 0.0 && deviation >= 0.0
    requires RoundsCorner(c, acceleration, deviation, speedSqr) && RoundsCorner(sharper, acceleration, deviation, slower)
    ensures slower <= speedSqr && (c < sharper && acceleration > 0.0 && deviation > 0.0 ==> slower < speedSqr)
  {
    hide Square, CornerRadius, Times;
    var x, r :| HalfAngle(c, x) && CornerRadius(x, deviation, r) && speedSqr == Times(acceleration, r);
    var y, q :| HalfAngle(sharper, y) && CornerRadius(y, deviation, q) && slower == Times(acceleration, q);
    HalfBelowOne(c, x);
    HalfBelowOne(sharper, y);
    SquareMonotone(y, x);
    SquareMonotone(x, y);
    RadiusGrows(y, x, deviation, q, r);
    TimesOrder(acceleration, q, r);
  }

  lemma TimesOrder(a: real, x: real, y: real)
    requires a >= 0.0 && x <= y
    ensures Times(a, x) <= Times(a, y) && (a > 0.0 && x < y ==> Times(a, x) < Times(a, y)) && Times(a, 0.0) == 0.0
  {
    NonNegative(a, y - x);
    assert a * (y - x) == a * y - a * x;
    if a > 0.0 && x < y {
      TimesPositive(a, y - x);
    }
  }

  /** The wider the corner, the wider its circle. */
  lemma RadiusGrows(s: real, t: real, deviation: real, r: real, q: real)
    requires 0.0 < s <= t < 1.0 && deviation >= 0.0 && CornerRadius(s, deviation, r) && CornerRadius(t, deviation, q)
    ensures 0.0 <= r <= q && (s < t && deviation > 0.0 ==> r < q)
  {
    hide CornerRadius;
    RadiusTimes(s, deviation, r);
    RadiusTimes(t, deviation, q);
    RadiusSign(s, deviation, r);
    RadiusSign(t, deviation, q);
    var d := 1.0 - t;
    TimesOrder(deviation, s, t);
    TimesOrder(r, d, 1.0 - s);
    assert r * d <= q * d;
    MulSign(d, q - r);
    assert d * (q - r) == q * d - r * d;
  }

  lemma RadiusSign(sinHalf: real, deviation: real, radius: real)
    requires 0.0 < sinHalf < 1.0 && deviation >= 0.0 && CornerRadius(sinHalf, deviation, radius)
    ensures radius >= 0.0 && (deviation > 0.0 ==> radius > 0.0)
  {
    hide CornerRadius;
    RadiusTimes(sinHalf, deviation, radius);
    NonNegative(deviation, sinHalf);
    MulSign(1.0 - sinHalf, radius);
    MulSign(sinHalf, deviation);
    assert (1.0 - sinHalf) * radius == radius * (1.0 - sinHalf);
  }

  lemma CornerSpeed(cosTheta: real, sinHalf: real, acceleration: real, deviation: real, radius: real)
    requires cosTheta <= 0.999999 && acceleration >= 0.0 && radius >= 0.0
    requires 0.0 < sinHalf < 1.0 && CornerRadius(sinHalf, deviation, radius)
    ensures JunctionSpeedSqr(cosTheta, sinHalf, acceleration, deviation) == Times(acceleration, radius)
  {
    hide CornerRadius;
    RadiusTimes(sinHalf, deviation, radius);
    var d, v := 1.0 - sinHalf, acceleration * radius;
    assert acceleration * deviation * sinHalf == acceleration * (deviation * sinHalf);
    assert acceleration * (radius * d) == v * d;
    Cancel(acceleration * deviation * sinHalf, v, d);
    NonNegative(acceleration, radius);
  }

  // ---- The whole line ----

  function StepsTo(target: Vec, settings: Settings): Triple {
    [Round(Times(target[0], settings.stepsPerMm[0])), Round(Times(target[1], settings.stepsPerMm[1])), Round(Times(target[2], settings.stepsPerMm[2]))]
  }

  /** Each axis at the step nearest to its own target. */
  lemma StepsNearest(target: Vec, settings: Settings, i: nat, n: int)
    requires i < 3
    ensures var x := Times(target[i], settings.stepsPerMm[i]);
      RealAbs(x - StepsTo(target, settings)[i] as real) <= 0.5 && RealAbs(x - StepsTo(target, settings)[i] as real) <= RealAbs(x - n as real)
  {
    hide Round, RealAbs, Times;
    RoundNearest(Times(target[i], settings.stepsPerMm[i]), n);
  }

  const UPRIGHT := Invert(false, false, false)

  /** A motor displacement in millimetres. */
  function InMillimeters(steps: Triple, settings: Settings): Vec
    requires Usable(settings)
  {
    [steps[0] as real / settings.stepsPerMm[0], steps[1] as real / settings.stepsPerMm[1], steps[2] as real / settings.stepsPerMm[2]]
  }

  function LengthSqr(v: Vec): real {
    Square(v[0]) + Square(v[1]) + Square(v[2])
  }

  /** The axis displacement of a line. */
  function Displacement(from: Triple, target: Triple): Triple {
    [target[0] - from[0], target[1] - from[1], target[2] - from[2]]
  }

  /** The length is taken from the motor displacement as it would be without inverted directions, the
      direction from the displacement with them. */
  function Lengthwise(delta: Triple, settings: Settings): Vec
    requires Usable(settings)
  {
    InMillimeters(ToMotors(UPRIGHT, delta), settings)
  }

  function Directed(delta: Triple, settings: Settings): Vec
    requires Usable(settings)
  {
    InMillimeters(ToMotors(settings.inv, delta), settings)
  }

  /** So the direction is a unit vector exactly when the two motors have the same steps per millimetre, or
      X and Y are inverted alike, or the line is along one of them. */
  lemma UnitLength(delta: Triple, settings: Settings)
    requires Usable(settings)
    ensures (LengthSqr(Directed(delta, settings)) == LengthSqr(Lengthwise(delta, settings))) <==>
      (settings.stepsPerMm[0] == settings.stepsPerMm[1] || settings.inv.x == settings.inv.y || delta[0] == 0 || delta[1] == 0)
  {
    hide Square, Times;
    var a, b := settings.stepsPerMm[0], settings.stepsPerMm[1];
    var d, l := ToMotors(settings.inv, delta), ToMotors(UPRIGHT, delta);
    SameSquare(d[2], l[2], settings.stepsPerMm[2]);
    if settings.inv.x == settings.inv.y {
      SameSquare(d[0], l[0], a);
      SameSquare(d[1], l[1], b);
    } else {
      SameSquare(d[0], l[1], a);
      SameSquare(d[1], l[0], b);
      SwappedLengths(delta[0], delta[1], a, b);
    }
  }

  /** The length is measured along the motors: with the same steps per millimetre on X and Y, their part of it is
      the square root of two times as long as the way of the axes. */
  lemma LengthAlongMotors(delta: Triple, settings: Settings)
    requires Usable(settings) && settings.stepsPerMm[0] == settings.stepsPerMm[1]
    ensures var v := InMillimeters(delta, settings);
      && LengthSqr(Lengthwise(delta, settings)) == 2.0 * Square(v[0]) + 2.0 * Square(v[1]) + Square(v[2])
      && (LengthSqr(Lengthwise(delta, settings)) == LengthSqr(v) <==> delta[0] == 0 && delta[1] == 0)
  {
    var v, l, s := InMillimeters(delta, settings), Lengthwise(delta, settings), settings.stepsPerMm[0];
    SumOfQuotients(delta[0], delta[1], s);
    assert l[0] == v[0] + v[1] && l[1] == v[0] - v[1] && l[2] == v[2];
    assert Square(v[0] + v[1]) + Square(v[0] - v[1]) == 2.0 * Square(v[0]) + 2.0 * Square(v[1]);
    SquarePositive(v[0]);
    SquarePositive(v[1]);
    NonzeroQuotient(delta[0] as real, s);
    NonzeroQuotient(delta[1] as real, s);
    assert 0.0 / s == 0.0;
    hide Square, Lengthwise, InMillimeters;
  }

  lemma SumOfQuotients(x: int, y: int, s: real)
    requires s > 0.0
    ensures (x + y) as real / s == x as real / s + y as real / s && (x - y) as real / s == x as real / s - y as real / s
  {
  }

  /** The direction and the direction bits of the block are those of the same motor displacement. */
  lemma DirectionBits(from: Triple, target: Triple, settings: Settings, a: nat)
    requires Usable(settings) && a < 3
    ensures M.Plan(settings.inv, from, target).negative[a] <==> Directed(Displacement(from, target), settings)[a] < 0.0
  {
    var d := ToMotors(settings.inv, Displacement(from, target));
    SignOfQuotient(d[a], settings.stepsPerMm[a]);
  }

  lemma SignOfQuotient(n: int, s: real)
    requires s > 0.0
    ensures n as real / s < 0.0 <==> n < 0
  {
    var q := n as real / s;
    assert q * s == n as real;
    MulSign(s, q);
    assert s * q == q * s;
  }

  /** Exchanging the two motors' steps keeps the length only in these cases. */
  lemma SwappedLengths(x: int, y: int, a: real, b: real)
    requires a > 0.0 && b > 0.0
    ensures (Square((x - y) as real / a) + Square((x + y) as real / b) == Square((x + y) as real / a) + Square((x - y) as real / b))
        <==> (a == b || x == 0 || y == 0)
  {
  }

  lemma SameSquare(d: int, l: int, s: real)
    requires s > 0.0 && (d == l || d == -l)
    ensures Square(d as real / s) == Square(l as real / s)
  {
  }

  /** The rate asked for: rapids as fast as can be, inverse time in proportion to length, and never below
      the minimum. */
  function Asked(feedRate: real, inverseTime: bool, millimeters: real): (r: real)
    ensures r >= MINIMUM_FEED_RATE
  {
    var asked := if feedRate < 0.0 then SOME_LARGE_VALUE else if inverseTime then feedRate * millimeters else feedRate;
    if asked < MINIMUM_FEED_RATE then MINIMUM_FEED_RATE else asked
  }

  /** At the rate asked for, unless it is the minimum, an inverse-time line takes the time asked, and any other runs
      at its feed rate. */
  lemma AskedRate(feedRate: real, inverseTime: bool, millimeters: real)
    requires feedRate >= 0.0
    ensures var r := Asked(feedRate, inverseTime, millimeters);
      r != MINIMUM_FEED_RATE ==> if inverseTime then Times(1.0 / r, millimeters) * feedRate == 1.0 else r == feedRate
    ensures Asked(-1.0, inverseTime, millimeters) == SOME_LARGE_VALUE
  {
    var r := Asked(feedRate, inverseTime, millimeters);
    if r != MINIMUM_FEED_RATE && inverseTime {
      assert r == feedRate * millimeters;
      assert 1.0 / r * r == 1.0;
      assert 1.0 / r * millimeters * feedRate == 1.0 / r * (feedRate * millimeters);
    }
  }

  lemma LongerThanNothing(delta: Triple, settings: Settings)
    requires Usable(settings) && delta != [0, 0, 0]
    ensures LengthSqr(Lengthwise(delta, settings)) > 0.0
  {
    var l := ToMotors(UPRIGHT, delta);
    assert l[0] + l[1] == 2 * delta[0] && l[0] - l[1] == 2 * delta[1];
    assert l[0] != 0 || l[1] != 0 || l[2] != 0 by {
      assert delta[0] != 0 || delta[1] != 0 || delta[2] != 0;
    }
    var v := Lengthwise(delta, settings);
    SquarePositive(v[0]);
    SquarePositive(v[1]);
    SquarePositive(v[2]);
    NonzeroQuotient(l[0] as real, settings.stepsPerMm[0]);
    NonzeroQuotient(l[1] as real, settings.stepsPerMm[1]);
    NonzeroQuotient(l[2] as real, settings.stepsPerMm[2]);
  }

  lemma SquarePositive(x: real)
    ensures Square(x) >= 0.0 && (x != 0.0 ==> Square(x) > 0.0)
  {
    var a := RealAbs(x);
    assert Square(x) == a * a;
    if x != 0.0 {
      TimesPositive(a, a);
    }
  }

  lemma NonzeroQuotient(x: real, s: real)
    requires s > 0.0
    ensures x != 0.0 ==> x / s != 0.0
  {
  }

  /** What the planner works out about a line before queueing it. */
  datatype Line = Line(millimeters: real, unit: Vec, rate: real, acceleration: real, junctionSpeedSqr: real)

  /** The block data of a line: its true length, its direction, the greatest rate and acceleration along it
      within every axis's limits, and the speed through the corner with the line before. */
  ghost predicate Measured(line: Line, delta: Triple, feedRate: real, inverseTime: bool, previous: Vec, settings: Settings)
    requires Usable(settings)
  {
    && line.millimeters > 0.0 && Square(line.millimeters) == LengthSqr(Lengthwise(delta, settings))
    && (forall i :: 0 <= i < 3 ==> line.unit[i] == Times(Directed(delta, settings)[i], 1.0 / line.millimeters))
    && Greatest(line.unit, settings.maxRate, Asked(feedRate, inverseTime, line.millimeters), line.rate)
    && Greatest(line.unit, settings.acceleration, SOME_LARGE_VALUE, line.acceleration)
    && TakesCorner(-Dot(previous, line.unit, 3), line.acceleration, settings.junctionDeviation, line.junctionSpeedSqr)
    && line.junctionSpeedSqr >= 0.0 && line.acceleration >= 0.0
    && (Positive(settings.maxRate) ==> line.rate > 0.0) && (Positive(settings.acceleration) ==> line.acceleration > 0.0)
  }

  method Measure(delta: Triple, feedRate: real, inverseTime: bool, previous: Vec, settings: Settings, root: real -> real) returns (line: Line)
    requires Usable(settings) && IsRoot(root) && delta != [0, 0, 0]
    ensures Measured(line, delta, feedRate, inverseTime, previous, settings)
  {
    hide Greatest, Lengthwise, Directed, Asked, TakesCorner, LengthSqr, Times, Dot;
    LongerThanNothing(delta, settings);
    var millimeters := root(LengthSqr(Lengthwise(delta, settings)));
    assert Square(millimeters) == LengthSqr(Lengthwise(delta, settings));
    var asked := Asked(feedRate, inverseTime, millimeters);
    var unit, rate, acceleration, cosTheta := LimitRates(Directed(delta, settings), millimeters, asked, previous, settings);
    var junctionSpeedSqr := Corner(cosTheta, acceleration, settings.junctionDeviation, root);
    line := Line(millimeters, unit, rate, acceleration, junctionSpeedSqr);
  }

  class LinePlanner {
    const planner: Planner
    var position: Triple // in axis steps
    var previousUnit: Vec

    constructor (planner: Planner)
      ensures this.planner == planner && position == [0, 0, 0] && previousUnit == [0.0, 0.0, 0.0]
    {
      this.planner := planner;
      position, previousUnit := [0, 0, 0], [0.0, 0.0, 0.0];
    }

    /** Plans and queues a line: nothing for a line without steps, and otherwise one block with the data
        measured from it, entered no faster than the corner and both lines' rates allow, with the plan
        brought up to date. */
    method PlanBufferLine(target: Vec, feedRate: real, inverseTime: bool, settings: Settings, root: real -> real) returns (job: M.Job)
      requires planner.Valid() && planner.Optimal() && |planner.queue| < BLOCK_BUFFER_SIZE - 1
      requires Usable(settings) && Positive(settings.maxRate) && Positive(settings.acceleration) && IsRoot(root)
      modifies this, planner, planner.blockBuffer
      ensures planner.Valid() && planner.Optimal()
      ensures job == M.Plan(settings.inv, old(position), StepsTo(target, settings)) && position == StepsTo(target, settings)
      ensures (planner.executing ==> old(planner.executing))
      ensures planner.partialBlock == (old(planner.partialBlock) || (old(planner.executing) && !planner.executing))
      ensures planner.currentSpeed == old(planner.currentSpeed) && planner.exitSpeed == old(planner.exitSpeed)
      ensures position == old(position) ==> planner.queue == old(planner.queue) && previousUnit == old(previousUnit)
      ensures position != old(position) ==>
        && |planner.queue| == |old(planner.queue)| + 1
        && SameBlocks(planner.queue[..|old(planner.queue)|], old(planner.queue))
        && exists line :: Measured(line, Displacement(old(position), position), feedRate, inverseTime, old(previousUnit), settings)
                          && previousUnit == line.unit && Queued(planner.queue[|old(planner.queue)|], line, old(planner.queue))
    {
      hide Measured, M.Plan, StepsTo, SameBlocks, BlocksOk, BlockOk, LimitsOf, LimitOf, OptimalPlan, StoredExit, Square;
      var steps := StepsTo(target, settings);
      job := M.Plan(settings.inv, position, steps);
      M.PlanExact(settings.inv, position, steps, 0);
      if job.stepEventCount == 0 {
        return;
      }
      ghost var q := planner.queue;
      var line := Measure(Displacement(position, steps), feedRate, inverseTime, previousUnit, settings, root);
      MeasuredPositive(line, Displacement(position, steps), feedRate, inverseTime, previousUnit, settings);
      planner.AppendBlock(line.acceleration, line.millimeters, Square(line.rate), line.junctionSpeedSqr);
      assert Queued(planner.queue[|q|], line, q);
      previousUnit, position := line.unit, steps;
    }
  }

  /** The block queued for a line, after the blocks q. */
  ghost predicate Queued(b: PlanBlock, line: Line, q: seq<PlanBlock>) {
    && b.millimeters == line.millimeters && b.acceleration == line.acceleration && b.nominalSpeedSqr == Square(line.rate)
    && b.maxEntrySpeedSqr == if q == [] then 0.0 else Min(line.junctionSpeedSqr, Min(Square(line.rate), q[|q| - 1].nominalSpeedSqr))
  }

  /** The cap of a queued line: the speed on the circle of its corner, unless a nominal speed is less, and none where
      the path doubles back. */
  lemma CornerCap(b: PlanBlock, line: Line, q: seq<PlanBlock>, delta: Triple, feedRate: real, inverseTime: bool, previous: Vec, settings: Settings,
      sinHalf: real, radius: real)
    requires Usable(settings) && Measured(line, delta, feedRate, inverseTime, previous, settings) && Queued(b, line, q) && q != []
    requires var cosTheta := -Dot(previous, line.unit, 3);
      HalfAngle(if cosTheta < -0.999999 then -0.999999 else cosTheta, sinHalf) && CornerRadius(sinHalf, settings.junctionDeviation, radius)
    ensures var slowest := Min(Square(line.rate), q[|q| - 1].nominalSpeedSqr);
      b.maxEntrySpeedSqr == Min(if -Dot(previous, line.unit, 3) > 0.999999 then 0.0 else Times(line.acceleration, radius), slowest)
  {
    hide Greatest, Lengthwise, Directed, LengthSqr, Times, Dot, CornerRadius, Asked;
    var cosTheta := -Dot(previous, line.unit, 3);
    var bent := if cosTheta < -0.999999 then -0.999999 else cosTheta;
    if cosTheta <= 0.999999 {
      CornerCircle(bent, sinHalf, line.acceleration, settings.junctionDeviation, radius, line.junctionSpeedSqr);
    }
  }

  lemma MeasuredPositive(line: Line, delta: Triple, feedRate: real, inverseTime: bool, previous: Vec, settings: Settings)
    requires Usable(settings) && Positive(settings.maxRate) && Positive(settings.acceleration)
    requires Measured(line, delta, feedRate, inverseTime, previous, settings)
    ensures line.millimeters > 0.0 && Square(line.rate) > 0.0 && line.acceleration > 0.0 && line.junctionSpeedSqr >= 0.0
  {
    SquarePositive(line.rate);
  }
}
