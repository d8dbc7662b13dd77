/** Vectors and rounding, and products of reals, kept by name where only their sign or bounds matter. */
module Reals {

  /** One value an axis. */
  type Vec = v: seq<real> | |v| == 3 witness [0.0, 0.0, 0.0]

  function RealAbs(x: real): (a: real)
    ensures a >= 0.0 && (x != 0.0 ==> a > 0.0)
  {
    if x < 0.0 then -x else x
  }

  /** Halves away from zero, as C rounds. */
  function Round(x: real): int {
    if x >= 0.0 then (x + 0.5).Floor else -((0.5 - x).Floor)
  }

  lemma RoundWithin(x: real)
    ensures var r := Round(x) as real;
      if x >= 0.0 then 0.0 <= r && -0.5 <= x - r < 0.5 else r <= 0.0 && -0.5 < x - r <= 0.5
  {
  }

  /** No integer is nearer, and of two as near the one away from zero is taken. */
  lemma RoundNearest(x: real, n: int)
    ensures RealAbs(x - Round(x) as real) <= 0.5 && RealAbs(x - Round(x) as real) <= RealAbs(x - n as real)
    ensures n != Round(x) && RealAbs(x - n as real) == RealAbs(x - Round(x) as real) ==> RealAbs(n as real) < RealAbs(Round(x) as real)
  {
    hide Round;
    RoundWithin(x);
    var r := Round(x);
    if n < r {
      WholeApart(n, r);
    } else if n > r {
      WholeApart(r, n);
    }
  }

  lemma WholeApart(n: int, r: int)
    requires n < r
    ensures n as real + 1.0 <= r as real
  {
  }

  function Times(a: real, b: real): real {
    a * b
  }

  lemma TimesPositive(a: real, b: real)
    requires a > 0.0 && b > 0.0
    ensures Times(a, b) > 0.0
  {
  }

  lemma NonNegative(a: real, b: real)
    requires a >= 0.0 && b >= 0.0
    ensures a * b >= 0.0
  {
  }

  lemma Scales(a: real, b: real, t: real)
    requires a <= b && t >= 0.0
    ensures a * t <= b * t
  {
    NonNegative(b - a, t);
    assert (b - a) * t == b * t - a * t;
  }

  lemma Cancel(x: real, y: real, d: real)
    requires d > 0.0 && x == y * d
    ensures x / d == y
  {
  }

  /** Multiplying by something between zero and one does not enlarge. */
  lemma Product(a: real, b: real)
    requires a >= 0.0 && 0.0 <= b <= 1.0
    ensures 0.0 <= a * b <= a
  {
    NonNegative(a, b);
    NonNegative(a, 1.0 - b);
    assert a * (1.0 - b) == a - a * b;
  }
}
