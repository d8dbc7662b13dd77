/** Arcs as short lines: successive rotations of the radius vector by an approximate matrix, set right by an
    exact one every so often. */
module Arc {
  import opened Reals

  const N_ARC_CORRECTION: nat := 12
  const SIXTH: real := 0.16666667 // the constant in the code, slightly more than a sixth

  // ---- One approximate rotation ----

  function CosT(theta: real): real {
    (2.0 - theta * theta) * 0.5
  }

  function SinT(theta: real, sixth: real): real {
    theta * sixth * (2.0 - theta * theta + 4.0)
  }

  function NormSquared(x: real, y: real): (n: real)
    ensures n >= 0.0
  {
    x * x + y * y
  }

  lemma NormZero(x: real, y: real)
    ensures NormSquared(x, y) == 0.0 <==> x == 0.0 && y == 0.0
  {
    if x != 0.0 {
      TimesPositive(RealAbs(x), RealAbs(x));
    }
    if y != 0.0 {
      TimesPositive(RealAbs(y), RealAbs(y));
    }
  }

  /** What a rotation multiplies the squared radius by. */
  function Factor(theta: real, sixth: real): real {
    NormSquared(CosT(theta), SinT(theta, sixth))
  }

  function RotateX(x: real, y: real, c: real, s: real): real {
    x * c - y * s
  }

  function RotateY(x: real, y: real, c: real, s: real): real {
    x * s + y * c
  }

  /** A matrix of the rotation's shape scales every squared length by the same factor. */
  lemma RotationScales(x: real, y: real, c: real, s: real)
    ensures NormSquared(RotateX(x, y, c, s), RotateY(x, y, c, s)) == Times(NormSquared(x, y), NormSquared(c, s))
  {
    var xx, yy, cc, ss := x * x, y * y, c * c, s * s;
    assert (x * c - y * s) * (x * c - y * s) == xx * cc - 2.0 * (x * c) * (y * s) + yy * ss;
    assert (x * s + y * c) * (x * s + y * c) == xx * ss + 2.0 * (x * s) * (y * c) + yy * cc;
    assert (x * c) * (y * s) == (x * s) * (y * c);
  }

  function Squared(t: real): real {
    Times(t, t)
  }

  function Cubed(t: real): real {
    Times(Squared(t), t)
  }

  function Chord(t: real): real {
    Times(t, 6.0 - t)
  }

  /** theta^2 (6 - theta^2)^2, in terms of theta^2. */
  function Sine2(t: real): real {
    Times(Chord(t), 6.0 - t)
  }

  /** By how much the square of the code's constant exceeds that of a sixth. */
  function Over(): (e: real)
    ensures 0.0 < e < 0.0000000012
  {
    0.16666667 * 0.16666667 - 1.0 / 36.0
  }

  /** With an exact sixth: 1 - theta^4/12 + theta^6/36. */
  lemma ExactSixthFactor(theta: real)
    ensures Factor(theta, 1.0 / 6.0) == 1.0 - Squared(theta * theta) / 12.0 + Cubed(theta * theta) / 36.0
  {
    var t := theta * theta;
    var s := 1.0 / 6.0 * (6.0 - t);
    assert SinT(theta, 1.0 / 6.0) == theta * s;
    assert (theta * s) * (theta * s) == t * (s * s);
    assert s * s == 1.0 - t / 3.0 + t * t / 36.0;
    assert t * (s * s) == t - t * t / 3.0 + t * t * t / 36.0;
  }

  /** With the code's constant, by how much more. */
  lemma CodeFactor(theta: real)
    ensures Factor(theta, SIXTH) == Factor(theta, 1.0 / 6.0) + Times(Over(), Sine2(theta * theta))
  {
    var t := theta * theta;
    var u := 6.0 - t;
    assert SinT(theta, SIXTH) == theta * (SIXTH * u) && SinT(theta, 1.0 / 6.0) == theta * (1.0 / 6.0 * u);
    assert (theta * (SIXTH * u)) * (theta * (SIXTH * u)) == t * (SIXTH * SIXTH * (u * u));
    assert (theta * (1.0 / 6.0 * u)) * (theta * (1.0 / 6.0 * u)) == t * (1.0 / 36.0 * (u * u));
    assert t * (SIXTH * SIXTH * (u * u)) == t * (1.0 / 36.0 * (u * u)) + (SIXTH * SIXTH - 1.0 / 36.0) * (t * u * u);
  }

  /** A rotation does not lengthen the radius exactly when theta is zero or not tiny: the excess of the
      constant over a sixth outweighs the fourth-order shortening below about 0.0007 radians. */
  lemma NotLengthened(theta: real)
    ensures var t := theta * theta;
      Factor(theta, SIXTH) <= 1.0 <==> t == 0.0 || Over() * (6.0 - t) * (6.0 - t) <= t / 12.0 - t * t / 36.0
  {
    hide Factor, Over;
    var t := theta * theta;
    var excess := Over() * (6.0 - t) * (6.0 - t);
    ExactSixthFactor(theta);
    CodeFactor(theta);
    assert Times(Over(), Sine2(t)) == t * excess;
    assert t * (t / 12.0 - t * t / 36.0) == Squared(t) / 12.0 - Cubed(t) / 36.0;
    assert Factor(theta, SIXTH) - 1.0 == t * (excess - (t / 12.0 - t * t / 36.0));
    Sign(t, excess - (t / 12.0 - t * t / 36.0));
  }

  lemma Sign(t: real, d: real)
    requires t >= 0.0
    ensures t * d <= 0.0 <==> t == 0.0 || d <= 0.0
  {
    if t > 0.0 && d > 0.0 {
      assert t * d > 0.0;
    } else if t > 0.0 {
      assert t * -d >= 0.0;
    }
  }

  lemma TinyAnglesLengthen()
    ensures Factor(0.0005, SIXTH) > 1.0 && Factor(0.001, SIXTH) < 1.0
  {
  }

  // ---- Twelve of them ----

  function Power(f: real, k: nat): real {
    if k == 0 then 1.0 else Times(f, Power(f, k - 1))
  }

  lemma SquareBounds(theta: real)
    requires -1.0 <= theta <= 1.0
    ensures 0.0 <= theta * theta <= 1.0
  {
    if theta >= 0.0 {
      Product(theta, theta);
    } else {
      Product(-theta, -theta);
    }
  }

  lemma SquaredFalls(t: real)
    requires 0.0 <= t <= 1.0
    ensures 0.0 <= Squared(t) <= t && 0.0 <= Chord(t) <= 6.0 * t
  {
    hide Times;
    AtMost(t, t, 1.0);
    AtMost(t, 6.0 - t, 6.0);
  }

  lemma PowersFall(t: real)
    requires 0.0 <= t <= 1.0
    ensures 0.0 <= Cubed(t) <= Squared(t) <= t && 0.0 <= Sine2(t) <= 36.0 * t
  {
    hide Squared, Chord, Times;
    SquaredFalls(t);
    AtMost(Squared(t), t, 1.0);
    AtMost(Chord(t), 6.0 - t, 6.0);
  }

  lemma AtMost(a: real, b: real, m: real)
    requires a >= 0.0 && 0.0 <= b <= m
    ensures 0.0 <= Times(a, b) <= m * a
  {
    NonNegative(a, b);
    NonNegative(a, m - b);
    assert a * (m - b) == m * a - a * b;
  }

  lemma OverBound(x: real)
    requires 0.0 <= x
    ensures 0.0 <= Times(Over(), x) <= 0.0000000012 * x
  {
    NonNegative(Over(), x);
    Scales(Over(), 0.0000000012, x);
  }

  lemma FactorBounds(theta: real)
    requires -1.0 <= theta <= 1.0
    ensures var t := theta * theta;
      && 0.0 <= t <= 1.0 && 0.0 <= Squared(t) <= 1.0
      && 1.0 - Squared(t) / 12.0 <= Factor(theta, SIXTH) <= 1.0 + 0.00000005 * t
      && 1.0 - Squared(t) / 12.0 <= Factor(theta, 1.0 / 6.0) <= 1.0
  {
    hide Factor, Squared, Cubed, Sine2, Over, Times;
    var t := theta * theta;
    SquareBounds(theta);
    ExactSixthFactor(theta);
    CodeFactor(theta);
    PowersFall(t);
    OverBound(Sine2(t));
  }

  /** Bernoulli's inequality below, and its counterpart above. */
  lemma {:induction false} PowerBounds(f: real, k: nat, d: real, e: real)
    requires k <= N_ARC_CORRECTION && 0.0 <= d <= 1.0 / 12.0 && 0.0 <= e <= 0.00000005 && 1.0 - d <= f <= 1.0 + e
    ensures 1.0 - Times(k as real, d) <= Power(f, k) <= 1.0 + 2.0 * Times(k as real, e)
    ensures Power(f, k) >= 0.0
  {
    if k == 0 {
      assert Times(0.0, d) == 0.0 && Times(0.0, e) == 0.0;
    } else {
      hide Times;
      var p, n := Power(f, k - 1), (k - 1) as real;
      PowerBounds(f, k - 1, d, e);
      OneMore(n, d);
      OneMore(n, e);
      AtMostEleven(n, e);
      AtLeast(f, p, d);
      Shrunk(p, Times(n, d), d);
      AtMostMore(f, p, e);
      Grown(p, 2.0 * Times(n, e), e);
    }
  }

  lemma OneMore(n: real, d: real)
    requires n >= 0.0 && d >= 0.0
    ensures Times(n + 1.0, d) == Times(n, d) + d && Times(n, d) >= 0.0
  {
    NonNegative(n, d);
  }

  lemma AtMostEleven(n: real, e: real)
    requires 0.0 <= n <= 11.0 && 0.0 <= e
    ensures Times(n, e) <= 11.0 * e
  {
    Scales(n, 11.0, e);
  }

  lemma AtLeast(f: real, p: real, d: real)
    requires p >= 0.0 && f >= 1.0 - d && d <= 1.0
    ensures Times(f, p) >= p - Times(d, p) && Times(f, p) >= 0.0
  {
    assert (f - (1.0 - d)) * p == f * p - p + d * p;
    NonNegative(f - (1.0 - d), p);
    NonNegative(f, p);
  }

  lemma Shrunk(p: real, x: real, d: real)
    requires p >= 1.0 - x && x >= 0.0 && 0.0 <= d <= 1.0
    ensures p - Times(d, p) >= 1.0 - x - d
  {
    assert (p - (1.0 - x)) * (1.0 - d) == p - d * p - 1.0 + x + d - d * x;
    NonNegative(p - (1.0 - x), 1.0 - d);
    NonNegative(d, x);
  }

  lemma AtMostMore(f: real, p: real, e: real)
    requires p >= 0.0 && f <= 1.0 + e
    ensures Times(f, p) <= p + Times(e, p)
  {
    assert (1.0 + e - f) * p == p + e * p - f * p;
    NonNegative(1.0 + e - f, p);
  }

  lemma Grown(p: real, x: real, e: real)
    requires 0.0 <= p <= 1.0 + x && 0.0 <= x <= 1.0 && e >= 0.0
    ensures p + Times(e, p) <= 1.0 + x + 2.0 * e
  {
    assert (1.0 + x - p) * (1.0 + e) == 1.0 + x - p + e + e * x - e * p;
    assert e * (1.0 - x) == e - e * x;
    NonNegative(1.0 + x - p, 1.0 + e);
    NonNegative(e, 1.0 - x);
  }

  /** Up to twelve factors stay between two bounds. */
  ghost predicate Bounded(f: real, low: real, high: real) {
    forall k :: 0 <= k <= N_ARC_CORRECTION ==> low <= Power(f, k) <= high
  }

  /** The bounds for rotations by theta: theta^4 below one, and about a millionth of theta^2 above. */
  function Low(theta: real): real {
    1.0 - Squared(theta * theta)
  }

  function High(theta: real): real {
    1.0 + 0.0000012 * (theta * theta)
  }

  /** A rotation multiplies every squared length by f. */
  ghost predicate ScalesBy(c: real, s: real, f: real) {
    forall x, y :: NormSquared(RotateX(x, y, c, s), RotateY(x, y, c, s)) == Times(NormSquared(x, y), f)
  }

  lemma RotationScalesBy(c: real, s: real, f: real)
    ensures ScalesBy(c, s, f) <==> f == NormSquared(c, s)
  {
    forall x, y ensures NormSquared(RotateX(x, y, c, s), RotateY(x, y, c, s)) == Times(NormSquared(x, y), NormSquared(c, s)) {
      RotationScales(x, y, c, s);
    }
    if ScalesBy(c, s, f) {
      assert NormSquared(RotateX(1.0, 0.0, c, s), RotateY(1.0, 0.0, c, s)) == Times(NormSquared(1.0, 0.0), f);
      assert NormSquared(1.0, 0.0) == 1.0;
    }
  }

  /** Between exact corrections the squared radius stays within the bounds. */
  lemma DriftBound(theta: real, f: real)
    requires -1.0 <= theta <= 1.0 && ScalesBy(CosT(theta), SinT(theta, SIXTH), f)
    ensures Bounded(f, Low(theta), High(theta))
  {
    hide Bounded, Squared, ScalesBy, CosT, SinT, NormSquared;
    var t := theta * theta;
    RotationScalesBy(CosT(theta), SinT(theta, SIXTH), f);
    FactorBounds(theta);
    TwelveFactors(f, Squared(t) / 12.0, 0.00000005 * t, Low(theta), High(theta));
  }

  /** With an exact sixth it would never grow. */
  lemma ExactDriftBound(theta: real, f: real)
    requires -1.0 <= theta <= 1.0 && ScalesBy(CosT(theta), SinT(theta, 1.0 / 6.0), f)
    ensures Bounded(f, Low(theta), 1.0)
  {
    hide Bounded, Squared, ScalesBy, CosT, SinT, NormSquared;
    RotationScalesBy(CosT(theta), SinT(theta, 1.0 / 6.0), f);
    FactorBounds(theta);
    TwelveFactors(f, Squared(theta * theta) / 12.0, 0.0, Low(theta), 1.0);
  }

  lemma TwelveFactors(f: real, d: real, e: real, low: real, high: real)
    requires 0.0 <= d <= 1.0 / 12.0 && 0.0 <= e <= 0.00000005 && 1.0 - d <= f <= 1.0 + e
    requires low == 1.0 - 12.0 * d && high == 1.0 + 24.0 * e
    ensures Bounded(f, low, high)
  {
    hide Power, Times;
    forall k | 0 <= k <= N_ARC_CORRECTION ensures low <= Power(f, k) <= high {
      PowerBounds(f, k, d, e);
      Twelvefold(k, d);
      Twelvefold(k, e);
    }
  }

  lemma Twelvefold(k: nat, d: real)
    requires k <= N_ARC_CORRECTION && d >= 0.0
    ensures Times(k as real, d) <= 12.0 * d
  {
    Scales(k as real, 12.0, d);
  }

  lemma Between(r: real, low: real, x: real, high: real)
    requires r >= 0.0 && low <= x <= high
    ensures Times(r, low) <= Times(r, x) <= Times(r, high)
  {
    NonNegative(r, x - low);
    NonNegative(r, high - x);
    assert r * (x - low) == r * x - r * low && r * (high - x) == r * high - r * x;
  }

  // ---- The arc ----

  predicate Axes(a0: nat, a1: nat, linear: nat) {
    a0 < 3 && a1 < 3 && linear < 3 && a0 != a1 && a0 != linear && a1 != linear
  }

  /** An arc to draw: where it starts, where it ends, the way to its centre, the plane, and the number of
      segments the tolerance asks for. */
  datatype Request = Request(start: Vec, target: Vec, offset: Vec, a0: nat, a1: nat, linear: nat, segments: nat, travel: real)

  predicate Wellformed(q: Request) {
    Axes(q.a0, q.a1, q.linear) && q.segments > 0
  }

  function Theta(q: Request): real
    requires Wellformed(q)
  {
    q.travel / q.segments as real
  }

  function LinearStep(q: Request): real
    requires Wellformed(q)
  {
    (q.target[q.linear] - q.start[q.linear]) / q.segments as real
  }

  function RadiusSquared(q: Request): real
    requires Wellformed(q)
  {
    NormSquared(q.offset[q.a0], q.offset[q.a1])
  }

  /** The squared distance of a point from the centre, in the plane. */
  function FromCentre(q: Request, p: Vec): real
    requires Wellformed(q)
  {
    NormSquared(p[q.a0] - (q.start[q.a0] + q.offset[q.a0]), p[q.a1] - (q.start[q.a1] + q.offset[q.a1]))
  }

  /** A rotation matrix, exact or not, and what it multiplies squared radii by. */
  datatype Turn = Turn(c: real, s: real)

  function ScaleOf(turn: Turn): real {
    NormSquared(turn.c, turn.s)
  }

  /** A vector from the centre, in the plane. */
  datatype Radius = Radius(x: real, y: real)

  function Length2(r: Radius): real {
    NormSquared(r.x, r.y)
  }

  function Turned(r: Radius, c: real, s: real): Radius {
    Radius(RotateX(r.x, r.y, c, s), RotateY(r.x, r.y, c, s))
  }

  /** Where the arc starts. */
  function StartRadius(q: Request): Radius
    requires Wellformed(q)
  {
    Radius(-q.offset[q.a0], -q.offset[q.a1])
  }

  /** Where the i-th rotation should put the radius vector. */
  function ExactAt(q: Request, i: nat, cosine: nat -> real, sine: nat -> real): Radius
    requires Wellformed(q)
  {
    Turned(StartRadius(q), cosine(i), sine(i))
  }

  /** The radius vector of the i-th point: the turn applied to the one before, and exact after every twelve. */
  function RadiusAt(q: Request, i: nat, turn: Turn, cosine: nat -> real, sine: nat -> real): Radius
    requires Wellformed(q)
  {
    if i == 0 then StartRadius(q)
    else if i % (N_ARC_CORRECTION + 1) == 0 then ExactAt(q, i, cosine, sine)
    else Turned(RadiusAt(q, i - 1, turn, cosine, sine), turn.c, turn.s)
  }

  /** The i-th point of an arc drawn with the given turn: at its share of the linear travel, and at its radius
      vector from the centre. */
  predicate ArcPoint(q: Request, p: Vec, i: nat, turn: Turn, cosine: nat -> real, sine: nat -> real)
    requires Wellformed(q)
  {
    var r := RadiusAt(q, i, turn, cosine, sine);
    && p[q.linear] == q.start[q.linear] + Times(i as real, LinearStep(q))
    && p[q.a0] == q.start[q.a0] + q.offset[q.a0] + r.x && p[q.a1] == q.start[q.a1] + q.offset[q.a1] + r.y
  }

  ghost predicate ArcPoints(q: Request, points: seq<Vec>, turn: Turn, cosine: nat -> real, sine: nat -> real)
    requires Wellformed(q)
  {
    forall k :: 0 <= k < |points| ==> ArcPoint(q, points[k], k + 1, turn, cosine, sine)
  }

  /** One intermediate point: rotate the radius vector, exactly if twelve approximations have gone by. */
  method NextRadius(q: Request, i: nat, count: nat, r0: real, r1: real, turn: Turn, cosine: nat -> real, sine: nat -> real)
    returns (r0': real, r1': real, count': nat)
    requires Wellformed(q) && i > 0 && count == (i - 1) % (N_ARC_CORRECTION + 1)
    requires Radius(r0, r1) == RadiusAt(q, i - 1, turn, cosine, sine)
    ensures Radius(r0', r1') == RadiusAt(q, i, turn, cosine, sine) && count' == i % (N_ARC_CORRECTION + 1)
  {
    hide RadiusAt, ExactAt, Turned, StartRadius;
    NextRadiusIs(q, i, turn, cosine, sine);
    if count < N_ARC_CORRECTION {
      var rAxis := r0 * turn.s + r1 * turn.c;
      r0' := r0 * turn.c - r1 * turn.s;
      r1' := rAxis;
      TurnedIs(Radius(r0, r1), turn.c, turn.s);
      count' := count + 1;
    } else {
      r0' := -q.offset[q.a0] * cosine(i) + q.offset[q.a1] * sine(i);
      r1' := -q.offset[q.a0] * sine(i) - q.offset[q.a1] * cosine(i);
      ExactIs(q, i, cosine, sine);
      count' := 0;
    }
  }

  lemma NextRadiusIs(q: Request, i: nat, turn: Turn, cosine: nat -> real, sine: nat -> real)
    requires Wellformed(q) && i > 0
    ensures var n := (i - 1) % (N_ARC_CORRECTION + 1);
      && i % (N_ARC_CORRECTION + 1) == (if n < N_ARC_CORRECTION then n + 1 else 0)
      && RadiusAt(q, i, turn, cosine, sine)
         == if n < N_ARC_CORRECTION then Turned(RadiusAt(q, i - 1, turn, cosine, sine), turn.c, turn.s) else ExactAt(q, i, cosine, sine)
  {
    hide Turned, ExactAt, Wellformed;
    NextCount(i);
  }

  lemma NextCount(i: nat)
    requires i > 0
    ensures var n := (i - 1) % (N_ARC_CORRECTION + 1);
      i % (N_ARC_CORRECTION + 1) == if n < N_ARC_CORRECTION then n + 1 else 0
  {
  }

  lemma TurnedIs(r: Radius, c: real, s: real)
    ensures Turned(r, c, s) == Radius(r.x * c - r.y * s, r.x * s + r.y * c)
  {
  }

  lemma ExactIs(q: Request, i: nat, cosine: nat -> real, sine: nat -> real)
    requires Wellformed(q)
    ensures ExactAt(q, i, cosine, sine)
         == Radius(-q.offset[q.a0] * cosine(i) + q.offset[q.a1] * sine(i), -q.offset[q.a0] * sine(i) - q.offset[q.a1] * cosine(i))
  {
  }

  lemma ShareMore(i: real, step: real)
    ensures Times(0.0, step) == 0.0 && Times(i + 1.0, step) == Times(i, step) + step
  {
  }

  /** Draws the intermediate points; stops when a line reports an abort. */
  method DrawPoints(position: array<real>, q: Request, turn: Turn, cosine: nat -> real, sine: nat -> real, aborts: nat -> bool)
    returns (lines: seq<Vec>, aborted: bool)
    requires position.Length == 3 && position[..] == q.start && Wellformed(q)
    modifies position
    ensures ArcPoints(q, lines, turn, cosine, sine)
    ensures aborted ==> |lines| < q.segments && aborts(|lines|)
    ensures !aborted ==> |lines| == q.segments - 1
  {
    hide LinearStep, Times, ArcPoint, RotateX, RotateY;
    var r0, r1 := -q.offset[q.a0], -q.offset[q.a1];
    var count: nat := 0;
    lines, aborted := [], false;
    ShareMore(0.0, LinearStep(q));
    var i: nat := 1;
    while i < q.segments
      invariant 1 <= i <= q.segments && |lines| == i - 1 && ArcPoints(q, lines, turn, cosine, sine)
      invariant count == (i - 1) % (N_ARC_CORRECTION + 1) && Radius(r0, r1) == RadiusAt(q, i - 1, turn, cosine, sine)
      invariant position[q.linear] == q.start[q.linear] + Times((i - 1) as real, LinearStep(q))
    {
      r0, r1, count := NextRadius(q, i, count, r0, r1, turn, cosine, sine);
      MoveTo(position, q, i, r0, r1, turn, cosine, sine);
      lines := lines + [position[..]];
      if aborts(i) {
        return lines, true;
      }
      i := i + 1;
    }
  }

  /** Updates the position for the i-th point. */
  method MoveTo(position: array<real>, q: Request, i: nat, r0: real, r1: real, ghost turn: Turn, ghost cosine: nat -> real, ghost sine: nat -> real)
    requires position.Length == 3 && Wellformed(q) && i > 0 && Radius(r0, r1) == RadiusAt(q, i, turn, cosine, sine)
    requires position[q.linear] == q.start[q.linear] + Times((i - 1) as real, LinearStep(q))
    modifies position
    ensures ArcPoint(q, position[..], i, turn, cosine, sine)
    ensures position[q.linear] == q.start[q.linear] + Times(i as real, LinearStep(q))
  {
    hide LinearStep, Times, RadiusAt;
    position[q.a0], position[q.a1] := q.start[q.a0] + q.offset[q.a0] + r0, q.start[q.a1] + q.offset[q.a1] + r1;
    position[q.linear] := position[q.linear] + LinearStep(q);
    ShareMore((i - 1) as real, LinearStep(q));
  }

  // ---- How far the points are off ----

  ghost predicate UnitRotations(cosine: nat -> real, sine: nat -> real) {
    forall i :: NormSquared(cosine(i), sine(i)) == 1.0
  }

  lemma TurnedLength(r: Radius, c: real, s: real)
    ensures Length2(Turned(r, c, s)) == Times(Length2(r), NormSquared(c, s))
  {
    RotationScales(r.x, r.y, c, s);
  }

  lemma PowerNext(r: real, f: real, k: nat)
    ensures Times(r, Power(f, 0)) == r && Times(r, Power(f, k + 1)) == Times(Times(r, Power(f, k)), f)
  {
    assert r * (f * Power(f, k)) == r * Power(f, k) * f;
  }

  lemma StartLength(q: Request)
    requires Wellformed(q)
    ensures Length2(StartRadius(q)) == RadiusSquared(q)
  {
  }

  /** The squared radius of the i-th point: scaled once for every approximation since the last exact rotation. */
  lemma {:induction false} RadiusLength(q: Request, i: nat, turn: Turn, cosine: nat -> real, sine: nat -> real)
    requires Wellformed(q) && UnitRotations(cosine, sine)
    ensures Length2(RadiusAt(q, i, turn, cosine, sine)) == Times(RadiusSquared(q), Power(ScaleOf(turn), i % (N_ARC_CORRECTION + 1)))
  {
    hide Length2, Turned, Times, Power, RadiusSquared, StartRadius, NormSquared;
    var n := i % (N_ARC_CORRECTION + 1);
    StartLength(q);
    PowerNext(RadiusSquared(q), ScaleOf(turn), 0);
    if n == 0 {
      assert NormSquared(cosine(i), sine(i)) == 1.0;
      TurnedLength(StartRadius(q), cosine(i), sine(i));
      TimesOne(RadiusSquared(q));
    } else {
      CountBefore(i);
      RadiusLength(q, i - 1, turn, cosine, sine);
      TurnedLength(RadiusAt(q, i - 1, turn, cosine, sine), turn.c, turn.s);
      PowerNext(RadiusSquared(q), ScaleOf(turn), n - 1);
    }
  }

  lemma TimesOne(x: real)
    ensures Times(x, 1.0) == x
  {
  }

  /** The exact rotations are the powers of one rotation (c, s). */
  ghost predicate Powers(cosine: nat -> real, sine: nat -> real, c: real, s: real) {
    && NormSquared(c, s) == 1.0 && cosine(0) == 1.0 && sine(0) == 0.0
    && forall i :: NextPower(cosine, sine, c, s, i)
  }

  ghost predicate NextPower(cosine: nat -> real, sine: nat -> real, c: real, s: real, i: nat) {
    Radius(cosine(i + 1), sine(i + 1)) == Turned(Radius(cosine(i), sine(i)), c, s)
  }

  function Apart(r: Radius, e: Radius): Radius {
    Radius(r.x - e.x, r.y - e.y)
  }

  /** Two vectors no longer than a and b times a length add up to one no longer than a + b times it. */
  lemma Triangle(u: Radius, v: Radius, a: real, b: real, r2: real)
    requires a >= 0.0 && b >= 0.0 && r2 >= 0.0
    requires Length2(u) <= Times(Squared(a), r2) && Length2(v) <= Times(Squared(b), r2)
    ensures Length2(Radius(u.x + v.x, u.y + v.y)) <= Times(Squared(a + b), r2)
  {
    hide Times, Squared, NormSquared;
    var dot, most := u.x * v.x + u.y * v.y, Times(Times(a, b), r2);
    DotBound(u, v, Length2(u), Length2(v));
    ProductBound(Length2(u), Length2(v), Times(Squared(a), r2), Times(Squared(b), r2));
    SquaredProduct(a, b, r2);
    AtMostRoot(dot, most);
    SumSquared(u, v);
    BothTimes(a, b, r2);
  }

  lemma DotBound(u: Radius, v: Radius, p: real, q: real)
    requires p == Length2(u) && q == Length2(v)
    ensures Squared(u.x * v.x + u.y * v.y) <= Times(p, q)
  {
    var d, c := u.x * v.x + u.y * v.y, u.x * v.y - u.y * v.x;
    RotationScales(u.x, u.y, v.x, -v.y);
    assert RotateX(u.x, u.y, v.x, -v.y) == d;
    assert NormSquared(v.x, -v.y) == q;
    assert NormSquared(d, RotateY(u.x, u.y, v.x, -v.y)) == Times(p, q);
    SquareNotNegative(RotateY(u.x, u.y, v.x, -v.y));
  }

  lemma SquareNotNegative(x: real)
    ensures x * x >= 0.0
  {
  }

  lemma ProductBound(x: real, y: real, p: real, q: real)
    requires 0.0 <= x <= p && 0.0 <= y <= q
    ensures Times(x, y) <= Times(p, q)
  {
    Scales(x, p, y);
    Scales(y, q, p);
    assert y * p == p * y && q * p == p * q;
  }

  lemma SquaredProduct(a: real, b: real, r2: real)
    ensures Times(Times(Squared(a), r2), Times(Squared(b), r2)) == Squared(Times(Times(a, b), r2))
    ensures a >= 0.0 && b >= 0.0 && r2 >= 0.0 ==> Times(Times(a, b), r2) >= 0.0
  {
    assert a * a * r2 * (b * b * r2) == (a * b * r2) * (a * b * r2);
    if a >= 0.0 && b >= 0.0 && r2 >= 0.0 {
      NonNegative(a, b);
      NonNegative(a * b, r2);
    }
  }

  lemma AtMostRoot(x: real, y: real)
    requires y >= 0.0 && Squared(x) <= Squared(y)
    ensures x <= y
  {
    if x > y {
      NonNegative(y, x - y);
      TimesPositive(x - y, x - y);
      assert false;
    }
  }

  lemma SumSquared(u: Radius, v: Radius)
    ensures Length2(Radius(u.x + v.x, u.y + v.y)) == Length2(u) + Length2(v) + 2.0 * (u.x * v.x + u.y * v.y)
  {
  }

  lemma BothTimes(a: real, b: real, r2: real)
    ensures Times(Squared(a + b), r2) == Times(Squared(a), r2) + Times(Squared(b), r2) + 2.0 * Times(Times(a, b), r2)
  {
    assert (a + b) * (a + b) == a * a + b * b + 2.0 * (a * b);
  }

  /** The growth of the distance from the exact rotation, as a share of the radius: h bounds the growth of the
      vector in one turn and d the error of the turn. */
  function Drift(h: real, d: real, k: nat): real {
    if k == 0 then 0.0 else Times(h, Drift(h, d, k - 1)) + d
  }

  lemma {:induction false} DriftSmall(h: real, d: real, k: nat)
    requires 1.0 <= h <= 1.00000005 && d >= 0.0 && k <= N_ARC_CORRECTION
    ensures 0.0 <= Drift(h, d, k) <= 1.01 * Times(k as real, d)
  {
    hide Times;
    if k == 0 {
      ShareMore(0.0, d);
    } else {
      DriftSmall(h, d, k - 1);
      var p, n := Drift(h, d, k - 1), Times((k - 1) as real, d);
      ShareMore((k - 1) as real, d);
      GrowsLittle(h, p);
      AtMostEleven((k - 1) as real, d);
    }
  }

  lemma GrowsLittle(h: real, p: real)
    requires 1.0 <= h <= 1.00000005 && p >= 0.0
    ensures 0.0 <= Times(h, p) <= p + 0.00000005 * p
  {
    NonNegative(h, p);
    Scales(h, 1.00000005, p);
  }

  /** A turn's error on a vector: the turn's own on the exact one, and what it makes of the error there was. */
  lemma TurnedApart(z: Radius, e: Radius, turn: Turn, c: real, s: real)
    ensures var u := Turned(Apart(z, e), turn.c, turn.s); var v := Turned(e, turn.c - c, turn.s - s);
      Apart(Turned(z, turn.c, turn.s), Turned(e, c, s)) == Radius(u.x + v.x, u.y + v.y)
  {
  }

  /** Between exact corrections the i-th point is within Drift(h, d, i % 13) radii of the exact rotation, if one
      turn is within d of the exact rotation and lengthens by at most h. */
  lemma {:induction false} NearExact(q: Request, i: nat, turn: Turn, cosine: nat -> real, sine: nat -> real, c: real, s: real, h: real, d: real)
    requires Wellformed(q) && Powers(cosine, sine, c, s) && UnitRotations(cosine, sine)
    requires 1.0 <= h <= 1.00000005 && d >= 0.0 && ScaleOf(turn) <= Squared(h) && NormSquared(turn.c - c, turn.s - s) <= Squared(d)
    ensures var k := Drift(h, d, i % (N_ARC_CORRECTION + 1));
      Length2(Apart(RadiusAt(q, i, turn, cosine, sine), ExactAt(q, i, cosine, sine))) <= Times(Squared(k), RadiusSquared(q))
  {
    hide RadiusAt, ExactAt, Turned, Drift, Times, Length2, Apart, RadiusSquared, NormSquared, Powers, NextPower, UnitRotations, StartRadius, ScaleOf, Squared;
    PowersGive(cosine, sine, c, s, if i == 0 then 0 else i - 1);
    var n := i % (N_ARC_CORRECTION + 1);
    if n == 0 {
      DriftNext(h, d, 1);
      ExactNow(q, i, turn, cosine, sine);
      RadiusSquaredOk(q);
      SelfApart(ExactAt(q, i, cosine, sine), RadiusSquared(q));
    } else {
      CountBefore(i);
      NearExact(q, i - 1, turn, cosine, sine, c, s, h, d);
      NearNext(q, i, n, turn, cosine, sine, c, s, h, d);
    }
  }

  lemma CountBefore(i: nat)
    requires i % (N_ARC_CORRECTION + 1) > 0
    ensures i > 0 && (i - 1) % (N_ARC_CORRECTION + 1) == i % (N_ARC_CORRECTION + 1) - 1
  {
  }

  lemma NearNext(q: Request, i: nat, n: nat, turn: Turn, cosine: nat -> real, sine: nat -> real, c: real, s: real, h: real, d: real)
    requires Wellformed(q) && i > 0 && NormSquared(cosine(i - 1), sine(i - 1)) == 1.0 && NextPower(cosine, sine, c, s, i - 1)
    requires 1.0 <= h <= 1.00000005 && d >= 0.0 && ScaleOf(turn) <= Squared(h) && NormSquared(turn.c - c, turn.s - s) <= Squared(d)
    requires n > 0 && n == i % (N_ARC_CORRECTION + 1)
    requires Length2(Apart(RadiusAt(q, i - 1, turn, cosine, sine), ExactAt(q, i - 1, cosine, sine))) <= Times(Squared(Drift(h, d, n - 1)), RadiusSquared(q))
    ensures Length2(Apart(RadiusAt(q, i, turn, cosine, sine), ExactAt(q, i, cosine, sine))) <= Times(Squared(Drift(h, d, n)), RadiusSquared(q))
  {
    hide RadiusAt, ExactAt, Turned, Drift, Times, Length2, Apart, RadiusSquared, NormSquared, NextPower, UnitRotations, StartRadius, ScaleOf, Squared;
    NextRadiusIs(q, i, turn, cosine, sine);
    var z, e := RadiusAt(q, i - 1, turn, cosine, sine), ExactAt(q, i - 1, cosine, sine);
    NextExact(q, i - 1, cosine, sine, c, s);
    DriftSmall(h, d, n - 1);
    RadiusSquaredOk(q);
    ExactLength(q, i - 1, cosine, sine);
    OneTurn(z, e, turn, c, s, h, Drift(h, d, n - 1), d, RadiusSquared(q));
    DriftNext(h, d, n);
  }

  /** One approximate turn of z against the exact turn of e. */
  lemma OneTurn(z: Radius, e: Radius, turn: Turn, c: real, s: real, h: real, k: real, d: real, r2: real)
    requires h >= 0.0 && k >= 0.0 && d >= 0.0 && r2 >= 0.0 && Length2(e) == r2 && Length2(Apart(z, e)) <= Times(Squared(k), r2)
    requires ScaleOf(turn) <= Squared(h) && NormSquared(turn.c - c, turn.s - s) <= Squared(d)
    ensures Length2(Apart(Turned(z, turn.c, turn.s), Turned(e, c, s))) <= Times(Squared(Times(h, k) + d), r2)
  {
    hide Turned, Times, Length2, Apart, NormSquared, ScaleOf, Squared;
    TurnedApart(z, e, turn, c, s);
    OldError(Apart(z, e), turn, h, k, r2);
    NewError(e, turn.c - c, turn.s - s, d, r2);
    Triangle(Turned(Apart(z, e), turn.c, turn.s), Turned(e, turn.c - c, turn.s - s), Times(h, k), d, r2);
  }

  lemma DriftNext(h: real, d: real, n: nat)
    requires n > 0
    ensures Drift(h, d, 0) == 0.0 && Drift(h, d, n) == Times(h, Drift(h, d, n - 1)) + d
  {
  }

  /** At the start, and after every twelve turns, the radius vector is exactly rotated. */
  lemma ExactNow(q: Request, i: nat, turn: Turn, cosine: nat -> real, sine: nat -> real)
    requires Wellformed(q) && i % (N_ARC_CORRECTION + 1) == 0 && cosine(0) == 1.0 && sine(0) == 0.0
    ensures RadiusAt(q, i, turn, cosine, sine) == ExactAt(q, i, cosine, sine)
  {
    hide Turned;
    if i == 0 {
      TurnedIs(StartRadius(q), 1.0, 0.0);
    }
  }

  lemma SelfApart(r: Radius, r2: real)
    ensures Length2(Apart(r, r)) == 0.0 == Times(Squared(0.0), r2)
  {
  }

  lemma PowersGive(cosine: nat -> real, sine: nat -> real, c: real, s: real, i: nat)
    requires Powers(cosine, sine, c, s) && UnitRotations(cosine, sine)
    ensures cosine(0) == 1.0 && sine(0) == 0.0 && NextPower(cosine, sine, c, s, i) && NormSquared(cosine(i), sine(i)) == 1.0
  {
  }

  lemma NextExact(q: Request, i: nat, cosine: nat -> real, sine: nat -> real, c: real, s: real)
    requires Wellformed(q) && NextPower(cosine, sine, c, s, i)
    ensures ExactAt(q, i + 1, cosine, sine) == Turned(ExactAt(q, i, cosine, sine), c, s)
  {
    TurnTwice(StartRadius(q), cosine(i), sine(i), c, s);
  }

  lemma TurnTwice(r: Radius, a: real, b: real, c: real, s: real)
    ensures var n := Turned(Radius(a, b), c, s); Turned(r, n.x, n.y) == Turned(Turned(r, a, b), c, s)
  {
  }

  lemma ExactLength(q: Request, i: nat, cosine: nat -> real, sine: nat -> real)
    requires Wellformed(q) && NormSquared(cosine(i), sine(i)) == 1.0
    ensures Length2(ExactAt(q, i, cosine, sine)) == RadiusSquared(q)
  {
    hide Length2, Turned, Times, RadiusSquared, StartRadius, NormSquared;
    StartLength(q);
    TurnedLength(StartRadius(q), cosine(i), sine(i));
    TimesOne(RadiusSquared(q));
  }

  lemma OldError(u: Radius, turn: Turn, h: real, k: real, r2: real)
    requires h >= 0.0 && k >= 0.0 && r2 >= 0.0 && ScaleOf(turn) <= Squared(h) && Length2(u) <= Times(Squared(k), r2)
    ensures Length2(Turned(u, turn.c, turn.s)) <= Times(Squared(Times(h, k)), r2) && Times(h, k) >= 0.0
  {
    hide NormSquared;
    TurnedLength(u, turn.c, turn.s);
    ProductBound(Length2(u), ScaleOf(turn), Times(Squared(k), r2), Squared(h));
    NonNegative(h, k);
    assert k * k * r2 * (h * h) == h * k * (h * k) * r2;
  }

  lemma NewError(e: Radius, c: real, s: real, d: real, r2: real)
    requires r2 >= 0.0 && NormSquared(c, s) <= Squared(d) && Length2(e) == r2
    ensures Length2(Turned(e, c, s)) <= Times(Squared(d), r2)
  {
    hide NormSquared;
    TurnedLength(e, c, s);
    ProductBound(r2, NormSquared(c, s), r2, Squared(d));
    assert r2 * (d * d) == d * d * r2;
  }

  /** In all: an arc's points between exact corrections stay within 12.12 times the error of one turn of where the
      exact rotations put them. */
  lemma FollowsRotation(q: Request, i: nat, turn: Turn, cosine: nat -> real, sine: nat -> real, c: real, s: real, d: real)
    requires Wellformed(q) && Powers(cosine, sine, c, s) && UnitRotations(cosine, sine)
    requires ScaleOf(turn) <= 1.00000005 && d >= 0.0 && NormSquared(turn.c - c, turn.s - s) <= Squared(d)
    ensures Length2(Apart(RadiusAt(q, i, turn, cosine, sine), ExactAt(q, i, cosine, sine))) <= Times(Squared(12.12 * d), RadiusSquared(q))
  {
    hide RadiusAt, ExactAt, Drift, Times, Length2, Apart, RadiusSquared, NormSquared, Powers, UnitRotations, ScaleOf, Squared;
    var h, n := 1.00000005, i % (N_ARC_CORRECTION + 1);
    assert 1.00000005 <= Squared(h) by { SquaredAbove(h); }
    NearExact(q, i, turn, cosine, sine, c, s, h, d);
    DriftSmall(h, d, n);
    Twelvefold(n, d);
    RadiusSquaredOk(q);
    Wider(Drift(h, d, n), 12.12 * d, RadiusSquared(q));
  }

  lemma SquaredAbove(h: real)
    requires h >= 1.0
    ensures h <= Squared(h)
  {
    Scales(1.0, h, h);
  }

  lemma Wider(x: real, y: real, r2: real)
    requires 0.0 <= x <= y && r2 >= 0.0
    ensures Times(Squared(x), r2) <= Times(Squared(y), r2)
  {
    Scales(x, y, x);
    Scales(x, y, y);
    assert x * y == y * x;
    Scales(Squared(x), Squared(y), r2);
  }

  /** c and s are within the bounds of the Taylor series of cosine and sine. */
  predicate Taylor(angle: real, c: real, s: real) {
    && RealAbs(c - (1.0 - angle * angle / 2.0)) <= Fourth(angle) / 24.0
    && RealAbs(s - (angle - angle * angle * angle / 6.0)) <= Fourth(angle) * RealAbs(angle) / 120.0
  }

  /** The error of one turn by an angle, in radii. */
  function ErrorOf(angle: real): real {
    Fourth(angle) / 24.0 + Fourth(angle) * RealAbs(angle) / 120.0 + 0.00000002 * RealAbs(angle)
  }

  /** The error of the code's turn, if c and s are within the Taylor bounds of the cosine and the sine: the terms it
      leaves out, and the excess of its constant over a sixth. */
  lemma TurnError(theta: real, c: real, s: real)
    requires Taylor(theta, c, s) && -1.0 <= theta <= 1.0
    ensures ErrorOf(theta) >= 0.0 && NormSquared(CosT(theta) - c, SinT(theta, SIXTH) - s) <= Squared(ErrorOf(theta))
  {
    var a := Fourth(theta) / 24.0;
    var b := Fourth(theta) * RealAbs(theta) / 120.0 + 0.00000002 * RealAbs(theta);
    SineExcess(theta);
    assert CosT(theta) == 1.0 - theta * theta / 2.0;
    SumOfSquares(CosT(theta) - c, SinT(theta, SIXTH) - s, a, b);
  }

  function Fourth(theta: real): real {
    theta * theta * (theta * theta)
  }

  lemma SineExcess(theta: real)
    requires -1.0 <= theta <= 1.0
    ensures RealAbs(SinT(theta, SIXTH) - (theta - theta * theta * theta / 6.0)) <= 0.00000002 * RealAbs(theta)
  {
    var t := theta * theta;
    SquareBounds(theta);
    var k := (SIXTH - 1.0 / 6.0) * (6.0 - t);
    assert 0.0 <= k <= 0.00000002;
    assert SinT(theta, SIXTH) == theta * SIXTH * (6.0 - t);
    assert SinT(theta, SIXTH) - (theta - theta * theta * theta / 6.0) == theta * k;
    AbsProduct(theta, k, 0.00000002);
  }

  lemma AbsProduct(x: real, k: real, m: real)
    requires 0.0 <= k <= m
    ensures RealAbs(x * k) <= m * RealAbs(x)
  {
    Scales(k, m, RealAbs(x));
    NonNegative(k, RealAbs(x));
  }

  lemma SumOfSquares(x: real, y: real, a: real, b: real)
    requires RealAbs(x) <= a && RealAbs(y) <= b
    ensures NormSquared(x, y) <= Squared(a + b)
  {
    SquareWithin(x, a);
    SquareWithin(y, b);
    NonNegative(a, b);
  }

  lemma SquareWithin(x: real, a: real)
    requires RealAbs(x) <= a
    ensures x * x <= a * a
  {
    var y := RealAbs(x);
    assert x * x == y * y;
    Scales(y, a, y);
    Scales(y, a, a);
    assert y * a == a * y;
  }

  /** The small-angle rotation the code uses for a segment. */
  function SegmentTurn(q: Request): Turn
    requires Wellformed(q)
  {
    Turn(CosT(Theta(q)), SinT(Theta(q), SIXTH))
  }

  /** The point's squared distance from the centre, against the circle's. */
  predicate Near(q: Request, p: Vec, low: real, high: real)
    requires Wellformed(q)
  {
    Times(RadiusSquared(q), low) <= FromCentre(q, p) <= Times(RadiusSquared(q), high)
  }

  /** Every point of an arc is as near the circle as its turn's powers are to one. */
  lemma ArcStaysNear(q: Request, points: seq<Vec>, turn: Turn, low: real, high: real, cosine: nat -> real, sine: nat -> real, k: nat)
    requires Wellformed(q) && ArcPoints(q, points, turn, cosine, sine) && Bounded(ScaleOf(turn), low, high) && k < |points|
    requires UnitRotations(cosine, sine)
    ensures Near(q, points[k], low, high)
  {
    hide RadiusSquared, Power, Times, RadiusAt, ScaleOf, LinearStep, NormSquared, UnitRotations;
    var p, r := points[k], RadiusAt(q, k + 1, turn, cosine, sine);
    assert ArcPoint(q, p, k + 1, turn, cosine, sine);
    assert p[q.a0] - (q.start[q.a0] + q.offset[q.a0]) == r.x && p[q.a1] - (q.start[q.a1] + q.offset[q.a1]) == r.y;
    RadiusLength(q, k + 1, turn, cosine, sine);
    RadiusSquaredOk(q);
    Between(RadiusSquared(q), low, Power(ScaleOf(turn), (k + 1) % (N_ARC_CORRECTION + 1)), high);
  }

  lemma RadiusSquaredOk(q: Request)
    requires Wellformed(q)
    ensures RadiusSquared(q) >= 0.0
  {
  }

  /** Cosine and sine of the multiples of an angle: they turn a vector by one multiple more each time, and the first are
      within the bounds of their Taylor series. */
  ghost predicate RotatesBy(angle: real, cosine: nat -> real, sine: nat -> real) {
    && cosine(0) == 1.0 && sine(0) == 0.0 && NormSquared(cosine(1), sine(1)) == 1.0
    && (forall i: nat :: cosine(i + 1) == cosine(i) * cosine(1) - sine(i) * sine(1) && sine(i + 1) == cosine(i) * sine(1) + sine(i) * cosine(1))
    && Taylor(angle, cosine(1), sine(1))
  }

  /** r is within d radii of `start` turned by the angle with cosine c and sine s. */
  predicate NearTurned(r: Radius, start: Radius, c: real, s: real, d: real) {
    Length2(Apart(r, Turned(start, c, s))) <= Times(Squared(d), Length2(start))
  }

  /** A point of the arc is at its share of the linear travel, and within 12.12 times the error of one turn of the
      start turned about the centre by i segments' angles. */
  ghost predicate AlongArc(q: Request, p: Vec, i: nat, cosine: nat -> real, sine: nat -> real)
    requires Wellformed(q)
  {
    var x, y := p[q.a0] - (q.start[q.a0] + q.offset[q.a0]), p[q.a1] - (q.start[q.a1] + q.offset[q.a1]);
    var angle := q.travel / q.segments as real;
    && p[q.linear] == q.start[q.linear] + i as real * ((q.target[q.linear] - q.start[q.linear]) / q.segments as real)
    && NearTurned(Radius(x, y), Radius(-q.offset[q.a0], -q.offset[q.a1]), cosine(i), sine(i), 12.12 * ErrorOf(angle))
  }

  lemma PowersOf(angle: real, cosine: nat -> real, sine: nat -> real)
    ensures RotatesBy(angle, cosine, sine) ==> Powers(cosine, sine, cosine(1), sine(1))
  {
    if RotatesBy(angle, cosine, sine) {
      forall i: nat ensures NextPower(cosine, sine, cosine(1), sine(1), i) {
        TurnedIs(Radius(cosine(i), sine(i)), cosine(1), sine(1));
      }
    }
  }

  lemma PointAlongArc(q: Request, p: Vec, i: nat, cosine: nat -> real, sine: nat -> real)
    requires Wellformed(q) && UnitRotations(cosine, sine) && -1.0 <= Theta(q) <= 1.0 && RotatesBy(Theta(q), cosine, sine)
    requires ArcPoint(q, p, i, SegmentTurn(q), cosine, sine)
    ensures AlongArc(q, p, i, cosine, sine)
  {
    hide RadiusAt, Powers, UnitRotations, Squared, ErrorOf, Taylor, Times, CosT, SinT, NormSquared;
    var r, e, d := RadiusAt(q, i, SegmentTurn(q), cosine, sine), ExactAt(q, i, cosine, sine), ErrorOf(Theta(q));
    PowersOf(Theta(q), cosine, sine);
    TurnError(Theta(q), cosine(1), sine(1));
    FactorBounds(Theta(q));
    FollowsRotation(q, i, SegmentTurn(q), cosine, sine, cosine(1), sine(1), d);
    PointParts(q, p, i, cosine, sine, r, e);
  }

  lemma PointParts(q: Request, p: Vec, i: nat, cosine: nat -> real, sine: nat -> real, r: Radius, e: Radius)
    requires Wellformed(q) && ArcPoint(q, p, i, SegmentTurn(q), cosine, sine)
    requires r == RadiusAt(q, i, SegmentTurn(q), cosine, sine) && e == ExactAt(q, i, cosine, sine)
    requires Length2(Apart(r, e)) <= Times(Squared(12.12 * ErrorOf(Theta(q))), RadiusSquared(q))
    ensures AlongArc(q, p, i, cosine, sine)
  {
    hide RadiusAt, Squared, ErrorOf, Turned, Times, RadiusSquared, LinearStep, Length2, Apart;
    RadiusSquaredIs(q);
    ShareIs(q, i);
    var x, y := p[q.a0] - (q.start[q.a0] + q.offset[q.a0]), p[q.a1] - (q.start[q.a1] + q.offset[q.a1]);
    assert r == Radius(x, y) && e == Turned(StartRadius(q), cosine(i), sine(i));
  }

  lemma ShareIs(q: Request, i: nat)
    requires Wellformed(q)
    ensures Times(i as real, LinearStep(q)) == i as real * ((q.target[q.linear] - q.start[q.linear]) / q.segments as real)
  {
  }

  lemma RadiusSquaredIs(q: Request)
    requires Wellformed(q)
    ensures RadiusSquared(q) == Length2(StartRadius(q))
  {
  }

  /** An arc: its points, then a line to the target itself, so that whatever drift there was ends there. In
      inverse time every line gets its share of the time. */
  method McArc(position: array<real>, q: Request, feedRate: real, inverseTime: bool,
      cosine: nat -> real, sine: nat -> real, aborts: nat -> bool) returns (lines: seq<Vec>, feed: real, aborted: bool)
    requires position.Length == 3 && position[..] == q.start && Axes(q.a0, q.a1, q.linear)
    requires UnitRotations(cosine, sine)
    modifies position
    ensures q.segments == 0 ==> lines == [q.target] && feed == feedRate
    ensures q.segments > 0 && !aborted ==> |lines| == q.segments && lines[q.segments - 1] == q.target
    ensures q.segments > 0 && !aborted ==> ArcPoints(q, lines[..q.segments - 1], SegmentTurn(q), cosine, sine)
    ensures q.segments > 0 && aborted ==> |lines| < q.segments && aborts(|lines|) && ArcPoints(q, lines, SegmentTurn(q), cosine, sine)
    ensures q.segments > 0 ==> feed == if inverseTime then feedRate * q.segments as real else feedRate
    ensures q.segments > 0 && -1.0 <= Theta(q) <= 1.0 ==>
              forall k :: 0 <= k < |lines| - 1 ==> Near(q, lines[k], Low(Theta(q)), High(Theta(q)))
    ensures q.segments > 0 && -1.0 <= q.travel / q.segments as real <= 1.0 && RotatesBy(q.travel / q.segments as real, cosine, sine) ==>
              forall k :: 0 <= k < |lines| && k < q.segments - 1 ==> AlongArc(q, lines[k], k + 1, cosine, sine)
  {
    hide Near, ArcPoint, Low, High, CosT, SinT, RotatesBy, AlongArc, UnitRotations;
    lines, feed, aborted := [], feedRate, false;
    if q.segments > 0 {
      if inverseTime {
        feed := feed * q.segments as real;
      }
      lines, aborted := DrawPoints(position, q, SegmentTurn(q), cosine, sine, aborts);
      if -1.0 <= Theta(q) <= 1.0 {
        RotationScalesBy(SegmentTurn(q).c, SegmentTurn(q).s, ScaleOf(SegmentTurn(q)));
        DriftBound(Theta(q), ScaleOf(SegmentTurn(q)));
        forall k | 0 <= k < |lines| ensures Near(q, lines[k], Low(Theta(q)), High(Theta(q))) {
          ArcStaysNear(q, lines, SegmentTurn(q), Low(Theta(q)), High(Theta(q)), cosine, sine, k);
        }
        if RotatesBy(Theta(q), cosine, sine) {
          forall k | 0 <= k < |lines| ensures AlongArc(q, lines[k], k + 1, cosine, sine) {
            assert ArcPoint(q, lines[k], k + 1, SegmentTurn(q), cosine, sine);
            PointAlongArc(q, lines[k], k + 1, cosine, sine);
          }
        }
      }
      if aborted {
        return;
      }
    }
    lines := lines + [q.target];
  }

  // ---- The travel of an arc ----

  const ARC_ANGULAR_TRAVEL_EPSILON: real := 0.0000005

  /** The travel of an arc, from the angle between its two radius vectors: arcs of hardly any angle, or of one the
      wrong way, go round the other way. */
  function ArcTravel(angle: real, clockwise: bool, pi: real): real {
    if clockwise then
      if angle >= -ARC_ANGULAR_TRAVEL_EPSILON then angle - 2.0 * pi else angle
    else if angle <= ARC_ANGULAR_TRAVEL_EPSILON then angle + 2.0 * pi
    else angle
  }

  /** It turns the way asked for, by less than the angle too small to tell, or by no more than a whole turn and that
      angle, and ends where the angle does; an arc back to its start is a whole turn. */
  lemma TravelTurns(angle: real, clockwise: bool, pi: real)
    requires 3.0 < pi < 4.0 && -pi <= angle <= pi
    ensures var t := ArcTravel(angle, clockwise, pi);
      && (if clockwise then t < 0.0 else t > 0.0)
      && ARC_ANGULAR_TRAVEL_EPSILON < RealAbs(t) <= 2.0 * pi + ARC_ANGULAR_TRAVEL_EPSILON
      && t - angle in {0.0, 2.0 * pi, -2.0 * pi}
      && (angle == 0.0 ==> RealAbs(t) == 2.0 * pi)
  {
  }

  // ---- The centre of an arc given by its radius ----

  /** How far the centre lies off the chord, in half chords, to the left of the way along it. h and d are the roots of
      4 r^2 - x^2 - y^2 and of x^2 + y^2, for a chord (x, y). */
  function OffChord(r: real, h: real, d: real, clockwise: bool): real
    requires d != 0.0
  {
    var right := -(h / d);
    var side := if clockwise then right else -right;
    if r < 0.0 then -side else side
  }

  /** Four times the squared distance of the centre from the chord. */
  function OffSquared(x: real, y: real, r: real): real {
    4.0 * r * r - x * x - y * y
  }

  function CentreX(x: real, y: real, q: real): real {
    0.5 * (x - y * q)
  }

  function CentreY(x: real, y: real, q: real): real {
    0.5 * (y + x * q)
  }

  /** The centre (i, j) of an arc along the chord (x, y) is at the radius from both ends, to the right of the way for
      a clockwise arc and to the left for the other, and on the other side for a negative radius. */
  predicate CentredAt(x: real, y: real, r: real, clockwise: bool, i: real, j: real) {
    && NormSquared(i, j) == r * r && NormSquared(x - i, y - j) == r * r
    && if clockwise == (r >= 0.0) then x * j - y * i <= 0.0 else x * j - y * i >= 0.0
  }

  /** The centre computed for an arc given by its radius is where it should be, for a chord that is not zero in
      the plane: the arc is the shorter one, and the longer one for a negative radius. */
  lemma RadiusModeCentre(x: real, y: real, r: real, h: real, d: real, clockwise: bool)
    requires d > 0.0 && Squared(d) == NormSquared(x, y) && h >= 0.0 && Squared(h) == OffSquared(x, y, r)
    ensures var q := OffChord(r, h, d, clockwise);
      var i, j := CentreX(x, y, q), CentreY(x, y, q);
      CentredAt(x, y, r, clockwise, i, j) && (h > 0.0 ==> x * j - y * i != 0.0)
  {
    hide NormSquared, Squared, OffSquared, CentreX, CentreY;
    var q := OffChord(r, h, d, clockwise);
    CentreAtRadius(x, y, r, h, d, q);
    Side(x, y, q, d);
    QuotientSign(h, d);
  }

  lemma CentreAtRadius(x: real, y: real, r: real, h: real, d: real, q: real)
    requires d > 0.0 && Squared(d) == NormSquared(x, y) && Squared(h) == OffSquared(x, y, r) && (q == h / d || q == -(h / d))
    ensures var i, j := CentreX(x, y, q), CentreY(x, y, q);
      NormSquared(i, j) == r * r && NormSquared(x - i, y - j) == r * r
  {
    var i, j := CentreX(x, y, q), CentreY(x, y, q);
    QuarterTurn(x, y, q);
    QuarterTurn(x, y, -q);
    assert x - i == CentreX(x, y, -q) && y - j == CentreY(x, y, -q);
    Quotient(h, d);
    assert q * q == (h / d) * (h / d);
    assert d * d * (1.0 + q * q) == d * d + d * d * (q * q);
  }

  lemma Side(x: real, y: real, q: real, d: real)
    requires d > 0.0 && Squared(d) == NormSquared(x, y)
    ensures var i, j := CentreX(x, y, q), CentreY(x, y, q);
      (q > 0.0 <==> x * j - y * i > 0.0) && (q < 0.0 <==> x * j - y * i < 0.0)
  {
    var i, j := CentreX(x, y, q), CentreY(x, y, q);
    var n := d * d;
    assert n > 0.0 by { TimesPositive(d, d); }
    assert x * j - y * i == 0.5 * (n * q) by {
      assert x * j == 0.5 * (x * y + x * x * q) && y * i == 0.5 * (x * y - y * y * q);
      assert (x * x + y * y) * q == x * x * q + y * y * q;
    }
    if q > 0.0 {
      TimesPositive(n, q);
    } else if q < 0.0 {
      TimesPositive(n, -q);
      assert n * -q == -(n * q);
    }
  }

  lemma QuotientSign(h: real, d: real)
    requires d > 0.0 && h >= 0.0
    ensures h / d >= 0.0 && (h > 0.0 ==> h / d > 0.0)
  {
  }

  lemma QuarterTurn(x: real, y: real, q: real)
    ensures NormSquared(CentreX(x, y, q), CentreY(x, y, q)) == 0.25 * (NormSquared(x, y) * (1.0 + q * q))
  {
  }

  lemma Quotient(h: real, d: real)
    requires d > 0.0
    ensures d * d * ((h / d) * (h / d)) == h * h
  {
    var z := h / d;
    assert z * d == h;
    assert d * d * (z * z) == (z * d) * (z * d);
  }
}
