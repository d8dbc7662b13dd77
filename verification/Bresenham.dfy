/** The step interrupt's Bresenham counters, with adaptive multi-axis smoothing: block data is scaled
    by 8, and a segment at level L runs each whole step as 2^L ticks of 1/2^L of the increment. */
module Bresenham {

  const MAX_AMASS_LEVEL: nat := 3

  function Pow2(level: nat): (p: nat)
    requires level <= MAX_AMASS_LEVEL
    ensures p > 0 && Pow2Of(MAX_AMASS_LEVEL - level) * p == 8
  {
    Pow2Of(level)
  }

  function Pow2Of(level: int): int {
    match level case 0 => 1 case 1 => 2 case 2 => 4 case _ => 8
  }

  /** What one tick adds to an axis counter: the scaled step count shifted right by the level. */
  function Increment(steps: nat, level: nat): (i: nat)
    requires level <= MAX_AMASS_LEVEL
    ensures i == steps * Pow2(MAX_AMASS_LEVEL - level) && i * Pow2(level) == 8 * steps
  {
    (steps * 8) / Pow2(level)
  }

  /** One tick of one axis: the new counter, and whether the axis pulses. */
  function TickCounter(counter: int, increment: nat, events: nat): int {
    if counter + increment > events then counter + increment - events else counter + increment
  }

  function TickPulse(counter: int, increment: nat, events: nat): nat {
    if counter + increment > events then 1 else 0
  }

  datatype Axis = Axis(counter: int, pulses: nat)

  function Run(a: Axis, increment: nat, events: nat, ticks: nat): Axis {
    if ticks == 0 then a
    else
      var b := Run(a, increment, events, ticks - 1);
      Axis(TickCounter(b.counter, increment, events), b.pulses + TickPulse(b.counter, increment, events))
  }

  /** A piece of a block: n whole steps at one smoothing level. */
  datatype Piece = Piece(n: nat, level: nat)

  function RunPieces(a: Axis, steps: nat, count: nat, pieces: seq<Piece>): Axis
    requires forall p :: p in pieces ==> p.level <= MAX_AMASS_LEVEL
  {
    if pieces == [] then a
    else
      var p := pieces[|pieces| - 1];
      Run(RunPieces(a, steps, count, pieces[..|pieces| - 1]), Increment(steps, p.level), 8 * count, p.n * Pow2(p.level))
  }

  function TotalSteps(pieces: seq<Piece>): nat {
    if pieces == [] then 0 else TotalSteps(pieces[..|pieces| - 1]) + pieces[|pieces| - 1].n
  }

  /** The counter stays in range and, with the pulses, carries everything added so far. */
  ghost predicate Balanced(a: Axis, events: nat, start: int, added: int) {
    0 < a.counter <= events && a.counter + a.pulses * events == start + added
  }

  lemma TickBalanced(a: Axis, increment: nat, events: nat, start: int, added: int)
    requires Balanced(a, events, start, added) && increment <= events
    ensures Balanced(Axis(TickCounter(a.counter, increment, events), a.pulses + TickPulse(a.counter, increment, events)), events, start, added + increment)
  {
    assert (a.pulses + 1) * events == a.pulses * events + events;
  }

  lemma {:induction false} RunBalanced(a: Axis, increment: nat, events: nat, start: int, added: int, ticks: nat)
    requires Balanced(a, events, start, added) && increment <= events
    ensures Balanced(Run(a, increment, events, ticks), events, start, added + ticks * increment)
  {
    if ticks > 0 {
      RunBalanced(a, increment, events, start, added, ticks - 1);
      TickBalanced(Run(a, increment, events, ticks - 1), increment, events, start, added + (ticks - 1) * increment);
      assert (ticks - 1) * increment + increment == ticks * increment;
    }
  }

  lemma {:induction false} PiecesBalanced(a: Axis, steps: nat, count: nat, pieces: seq<Piece>, start: int)
    requires forall p :: p in pieces ==> p.level <= MAX_AMASS_LEVEL
    requires Balanced(a, 8 * count, start, 0) && steps <= count
    ensures Balanced(RunPieces(a, steps, count, pieces), 8 * count, start, 8 * TotalSteps(pieces) * steps)
  {
    if pieces != [] {
      var front, p := pieces[..|pieces| - 1], pieces[|pieces| - 1];
      PiecesBalanced(a, steps, count, front, start);
      var i, ticks := Increment(steps, p.level), p.n * Pow2(p.level);
      PieceTotal(steps, p, TotalSteps(front));
      RunBalanced(RunPieces(a, steps, count, front), i, 8 * count, start, 8 * TotalSteps(front) * steps, ticks);
    }
  }

  lemma PieceTotal(steps: nat, p: Piece, before: nat)
    requires p.level <= MAX_AMASS_LEVEL
    ensures Increment(steps, p.level) <= 8 * steps
    ensures p.n * Pow2(p.level) * Increment(steps, p.level) == 8 * p.n * steps
    ensures 8 * before * steps + 8 * p.n * steps == 8 * (before + p.n) * steps
  {
    var i, w := Increment(steps, p.level), Pow2(p.level);
    assert i * w == 8 * steps;
    assert p.n * w * i == p.n * (i * w);
  }

  lemma SmallMultiple(k: int, e: nat)
    requires -(e as int) < k * e < e
    ensures k == 0
  {
    if k >= 1 {
      MulAtLeast(k, e);
    } else if k <= -1 {
      MulAtLeast(-k, e);
    }
  }

  lemma MulAtLeast(k: int, e: nat)
    requires k >= 1
    ensures k * e >= e
  {
    assert (k - 1) * e >= 0;
  }

  /** Counter and pulse count are determined by what has been added. */
  lemma BalancedUnique(a: Axis, b: Axis, events: nat, start: int, added: int)
    requires Balanced(a, events, start, added) && Balanced(b, events, start, added)
    ensures a == b
  {
    assert (a.pulses - b.pulses) * events == a.pulses * events - b.pulses * events;
    SmallMultiple(a.pulses - b.pulses, events);
  }

  /** Exactness: however a block is cut and smoothed, each axis pulses exactly its step count and its
      counter is back where it started. */
  lemma BlockExact(steps: nat, count: nat, pieces: seq<Piece>)
    requires forall p :: p in pieces ==> p.level <= MAX_AMASS_LEVEL
    requires steps <= count && 0 < count == TotalSteps(pieces)
    ensures RunPieces(Axis(4 * count, 0), steps, count, pieces) == Axis(4 * count, steps)
  {
    PiecesBalanced(Axis(4 * count, 0), steps, count, pieces, 4 * count);
    assert 8 * count * steps == steps * (8 * count);
    BalancedUnique(RunPieces(Axis(4 * count, 0), steps, count, pieces), Axis(4 * count, steps), 8 * count, 4 * count, 8 * count * steps);
  }

  /** At every tick the pulses are within half a step of the straight line. */
  lemma NearIdealLine(steps: nat, count: nat, pieces: seq<Piece>, last: Piece, ticks: nat)
    requires forall p :: p in pieces ==> p.level <= MAX_AMASS_LEVEL
    requires last.level <= MAX_AMASS_LEVEL && ticks <= last.n * Pow2(last.level)
    requires 0 < count && steps <= count
    ensures var i := Increment(steps, last.level);
      var a := Run(RunPieces(Axis(4 * count, 0), steps, count, pieces), i, 8 * count, ticks);
      var ideal := 8 * TotalSteps(pieces) * steps + ticks * i; // in 1/(8 * count) of a step
      -(8 * count) <= 2 * (a.pulses * (8 * count) - ideal) <= 8 * count
  {
    var i := Increment(steps, last.level);
    PiecesBalanced(Axis(4 * count, 0), steps, count, pieces, 4 * count);
    PieceTotal(steps, last, 0);
    RunBalanced(RunPieces(Axis(4 * count, 0), steps, count, pieces), i, 8 * count, 4 * count, 8 * TotalSteps(pieces) * steps, ticks);
  }

  /** At every whole step, smoothing at any mix of levels agrees with no smoothing. */
  lemma SmoothingInvisible(steps: nat, count: nat, pieces: seq<Piece>)
    requires forall p :: p in pieces ==> p.level <= MAX_AMASS_LEVEL
    requires 0 < count && steps <= count
    ensures RunPieces(Axis(4 * count, 0), steps, count, pieces) == Run(Axis(4 * count, 0), 8 * steps, 8 * count, TotalSteps(pieces))
  {
    hide Run, RunPieces, TotalSteps;
    var k, start := TotalSteps(pieces), Axis(4 * count, 0);
    PiecesBalanced(start, steps, count, pieces, 4 * count);
    RunBalanced(start, 8 * steps, 8 * count, 4 * count, 0, k);
    var smoothed, plain, added := RunPieces(start, steps, count, pieces), Run(start, 8 * steps, 8 * count, k), 8 * k * steps;
    assert added == k * (8 * steps);
    hide Balanced;
    BalancedUnique(smoothed, plain, 8 * count, 4 * count, added);
  }

  /** Against the build without smoothing, whose unscaled counter starts at the rounded-down half: the
      two have pulsed equally often after k steps except where the count is odd and the unscaled
      counter is exactly full. There smoothing is one pulse ahead. */
  lemma AgainstUnscaled(steps: nat, count: nat, k: nat)
    requires 0 < count && steps <= count
    ensures var scaled := Run(Axis(4 * count, 0), 8 * steps, 8 * count, k);
      var unscaled := Run(Axis(count / 2, 0), steps, count, k);
      scaled.pulses == unscaled.pulses + if count % 2 == 1 && k > 0 && steps > 0 && (count / 2 + k * steps) % count == 0 then 1 else 0
  {
    hide Run, Balanced;
    var scaled, unscaled := Run(Axis(4 * count, 0), 8 * steps, 8 * count, k), Run(Axis(count / 2, 0), steps, count, k);
    ScaledBalanced(steps, count, k);
    if count == 1 && (steps == 0 || k == 0) {
      SingleStepUnscaled(steps, k);
    } else {
      UnscaledBalanced(steps, count, k);
      BalancedParts(unscaled, count, count / 2, k * steps);
      FullCounter(unscaled.counter, unscaled.pulses, count, count / 2 + k * steps);
      ComparePulses(scaled, unscaled, count, k * steps);
    }
  }

  lemma {:induction false} UnscaledBalanced(steps: nat, count: nat, k: nat)
    requires steps <= count && (count >= 2 || (count == 1 == steps && k > 0))
    ensures Balanced(Run(Axis(count / 2, 0), steps, count, k), count, count / 2, k * steps)
  {
    if count >= 2 {
      RunBalanced(Axis(count / 2, 0), steps, count, count / 2, 0, k);
    } else if k > 1 {
      UnscaledBalanced(steps, count, k - 1);
      TickBalanced(Run(Axis(0, 0), 1, 1, k - 1), 1, 1, 0, k - 1);
    }
  }

  lemma {:induction false} SingleStepIdle(k: nat)
    ensures Run(Axis(0, 0), 0, 1, k) == Axis(0, 0)
  {
    if k > 0 {
      SingleStepIdle(k - 1);
    }
  }

  lemma SingleStepUnscaled(steps: nat, k: nat)
    requires steps == 0 || k == 0
    ensures Run(Axis(0, 0), steps, 1, k).pulses == 0 && k * steps == 0
  {
    SingleStepIdle(k);
  }

  lemma BalancedParts(a: Axis, events: nat, start: int, added: int)
    requires Balanced(a, events, start, added)
    ensures 0 < a.counter <= events && a.counter + a.pulses * events == start + added
  {
  }

  lemma ScaledBalanced(steps: nat, count: nat, k: nat)
    requires 0 < count && steps <= count
    ensures var scaled := Run(Axis(4 * count, 0), 8 * steps, 8 * count, k);
      && (count == 1 ==> scaled.pulses * count == scaled.pulses)
      && 0 < scaled.counter <= 8 * count && scaled.counter + 8 * (scaled.pulses * count) == 4 * count + 8 * (k * steps)
  {
    hide Run, Balanced;
    var scaled := Run(Axis(4 * count, 0), 8 * steps, 8 * count, k);
    assert 4 * count + 0 * steps == 4 * count;
    assert Balanced(Axis(4 * count, 0), 8 * count, 4 * count, 0) by { StartBalanced(count); }
    RunBalanced(Axis(4 * count, 0), 8 * steps, 8 * count, 4 * count, 0, k);
    BalancedParts(scaled, 8 * count, 4 * count, 0 + k * (8 * steps));
    assert k * (8 * steps) == 8 * (k * steps);
    assert scaled.pulses * (8 * count) == 8 * (scaled.pulses * count);
  }

  lemma StartBalanced(count: nat)
    requires 0 < count
    ensures Balanced(Axis(4 * count, 0), 8 * count, 4 * count, 0)
  {
  }

  lemma FullCounter(c: int, p: nat, count: nat, total: nat)
    requires 0 < c <= count && c + p * count == total
    ensures c == count <==> total % count == 0
  {
    assert total == count * p + c;
    if c == count {
      assert total == count * (p + 1);
      ModOf(count, p + 1, 0, total);
    } else {
      ModOf(count, p, c, total);
    }
  }

  lemma ModOf(m: nat, q: int, r: nat, x: int)
    requires r < m && x == m * q + r
    ensures x % m == r
  {
    assert m * (x / m - q) == r - x % m;
    SmallMultiple(x / m - q, m);
  }

  lemma ComparePulses(scaled: Axis, unscaled: Axis, count: nat, added: nat)
    requires 0 < scaled.counter <= 8 * count && scaled.counter + 8 * (scaled.pulses * count) == 4 * count + 8 * added
    requires 0 < unscaled.counter <= count && unscaled.counter + unscaled.pulses * count == count / 2 + added
    ensures scaled.pulses == unscaled.pulses + if count % 2 == 1 && unscaled.counter == count then 1 else 0
  {
    var d, x, y := scaled.pulses - unscaled.pulses, scaled.pulses * count, unscaled.pulses * count;
    assert d * count == x - y && (d - 1) * count == x - y - count;
    CompareCounters(scaled.counter, x, unscaled.counter, y, count, added);
    if count % 2 == 1 && unscaled.counter == count {
      SmallMultiple(d - 1, count);
    } else {
      SmallMultiple(d, count);
    }
  }

  /** The same comparison with the pulses already multiplied out. */
  lemma CompareCounters(scaled: nat, x: nat, unscaled: nat, y: nat, count: nat, added: nat)
    requires 0 < scaled <= 8 * count && scaled + 8 * x == 4 * count + 8 * added
    requires 0 < unscaled <= count && unscaled + y == count / 2 + added
    ensures if count % 2 == 1 && unscaled == count then -(count as int) < x - y - count < count else -(count as int) < x - y < count
  {
  }
}
