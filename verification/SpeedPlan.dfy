/** Look-ahead speed planning over a list of blocks, in squared speeds.

    A block contributes two numbers: `cap`, the largest squared speed at which it may be entered,
    and `reach`, the change of squared speed (2 * acceleration * distance) possible across it.
    `Backward` is the planner's deceleration pass and `Plan` its acceleration pass, both taken over
    the whole list with nothing skipped: they are the reference the ring-buffer planner is held to. */
module SpeedPlan {

  datatype Limit = Limit(cap: real, reach: real)

  function Min(x: real, y: real): real { if x < y then x else y }

  ghost predicate Sane(ls: seq<Limit>) {
    forall i :: 0 <= i < |ls| ==> 0.0 <= ls[i].cap && 0.0 <= ls[i].reach
  }

  /** Fastest entry to block i from which the machine can still stop at the end of the list. */
  ghost function Backward(ls: seq<Limit>, i: nat): real
    requires i <= |ls|
    decreases |ls| - i
  {
    if i == |ls| then 0.0 else Min(ls[i].cap, Backward(ls, i + 1) + ls[i].reach)
  }

  /** The speed plan: block 0 is entered at squared speed v. */
  ghost function Plan(ls: seq<Limit>, v: real, i: nat): real
    requires i < |ls|
  {
    if i == 0 then v else Min(Backward(ls, i), Plan(ls, v, i - 1) + ls[i - 1].reach)
  }

  ghost function PlanAll(ls: seq<Limit>, v: real): seq<real> {
    seq(|ls|, i requires 0 <= i < |ls| => Plan(ls, v, i))
  }

  /** A squared speed can change from u to w over a block of the given reach. */
  ghost predicate Drivable(u: real, reach: real, w: real) {
    w <= u + reach && u <= w + reach
  }

  /** Entry speeds that respect every cap, every block's acceleration in both directions, and a stop
      at the end of the last block. */
  ghost predicate Feasible(ls: seq<Limit>, f: seq<real>) {
    && |f| == |ls|
    && (forall i :: 0 <= i < |f| ==> 0.0 <= f[i])
    && (forall i :: 1 <= i < |f| ==> f[i] <= ls[i].cap)
    && (forall i :: 1 <= i < |f| ==> Drivable(f[i - 1], ls[i - 1].reach, f[i]))
    && (|f| > 0 ==> f[|f| - 1] <= ls[|f| - 1].reach)
  }

  /** The first block can be left slowly enough for everything after it. */
  ghost predicate CanStop(ls: seq<Limit>, v: real) {
    |ls| > 0 ==> v <= Backward(ls, 1) + ls[0].reach
  }

  /** Block p is an optimal breakpoint: the first block, entered at its cap, or limited by the
      acceleration before it strictly below what the deceleration pass would allow. */
  ghost predicate Breakpoint(ls: seq<Limit>, v: real, p: nat)
    requires p < |ls|
  {
    p == 0 || Plan(ls, v, p) == ls[p].cap || Plan(ls, v, p) < Backward(ls, p)
  }

  lemma {:induction false} BackwardBounds(ls: seq<Limit>, i: nat)
    requires Sane(ls) && i <= |ls|
    ensures 0.0 <= Backward(ls, i)
    ensures i < |ls| ==> Backward(ls, i) <= ls[i].cap
    decreases |ls| - i
  {
    if i < |ls| {
      BackwardBounds(ls, i + 1);
    }
  }

  lemma {:induction false} PlanBounds(ls: seq<Limit>, v: real, i: nat)
    requires Sane(ls) && 0.0 <= v && i < |ls|
    ensures 0.0 <= Plan(ls, v, i)
    ensures i > 0 ==> Plan(ls, v, i) <= Backward(ls, i) <= ls[i].cap
  {
    if i > 0 {
      PlanBounds(ls, v, i - 1);
      BackwardBounds(ls, i);
    }
  }

  /** The plan is feasible exactly when the machine can still stop, and exactly when any plan from
      the same speed is. */
  lemma PlanFeasible(ls: seq<Limit>, v: real)
    requires Sane(ls) && 0.0 <= v && |ls| > 0
    ensures Feasible(ls, PlanAll(ls, v)) <==> CanStop(ls, v)
    ensures CanStop(ls, v) <==> exists f :: Feasible(ls, f) && f[0] == v
  {
    var f := PlanAll(ls, v);
    assert f[0] == v;
    if CanStop(ls, v) {
      forall i | 0 <= i < |ls|
        ensures 0.0 <= f[i]
        ensures i > 0 ==> f[i] <= ls[i].cap
        ensures i > 0 ==> Drivable(f[i - 1], ls[i - 1].reach, f[i])
        ensures i == |ls| - 1 ==> f[i] <= ls[i].reach
      {
        PlanBounds(ls, v, i);
        if i > 0 {
          PlanBounds(ls, v, i - 1);
        }
      }
      assert Feasible(ls, f);
    }
    forall g | Feasible(ls, g) && g[0] == v
      ensures CanStop(ls, v)
    {
      FeasibleBelowBackward(ls, g, 1);
    }
  }

  lemma {:induction false} FeasibleBelowBackward(ls: seq<Limit>, f: seq<real>, i: nat)
    requires Feasible(ls, f) && 1 <= i <= |ls|
    ensures i < |ls| ==> f[i] <= Backward(ls, i)
    ensures i == |ls| ==> f[i - 1] <= ls[i - 1].reach
    decreases |ls| - i
  {
    if i < |ls| {
      FeasibleBelowBackward(ls, f, i + 1);
      if i + 1 < |ls| {
        assert Drivable(f[(i + 1) - 1], ls[(i + 1) - 1].reach, f[i + 1]);
      }
    }
  }

  /** Optimality: no feasible plan with the same start is faster anywhere. */
  lemma {:induction false} PlanGreatest(ls: seq<Limit>, f: seq<real>, i: nat)
    requires Feasible(ls, f) && i < |ls|
    ensures f[i] <= Plan(ls, f[0], i)
  {
    if i > 0 {
      PlanGreatest(ls, f, i - 1);
      FeasibleBelowBackward(ls, f, i);
    }
  }

  lemma {:induction false} BackwardAppend(ls: seq<Limit>, x: Limit, i: nat)
    requires Sane(ls) && Sane([x]) && i <= |ls|
    ensures Backward(ls, i) <= Backward(ls + [x], i)
    ensures i < |ls| ==> Backward(ls + [x], i) <= ls[i].cap
    decreases |ls| - i
  {
    assert Sane(ls + [x]) by { assert [x][0] == x; }
    if i < |ls| {
      BackwardAppend(ls, x, i + 1);
    } else {
      BackwardBounds(ls + [x], i);
    }
  }

  /** Up to a breakpoint, a block whose plan is deceleration-limited has a deceleration limit no new
      block can raise. */
  lemma {:induction false} DecelerationFixed(ls: seq<Limit>, v: real, p: nat, i: nat, x: Limit)
    requires Sane(ls) && Sane([x]) && 0.0 <= v && 1 <= i <= p < |ls|
    requires Breakpoint(ls, v, p) && Plan(ls, v, i) == Backward(ls, i)
    ensures Backward(ls + [x], i) == Backward(ls, i)
    decreases p - i
  {
    BackwardAppend(ls, x, i);
    if Backward(ls, i) != ls[i].cap {
      assert i < p;
      BackwardBounds(ls, i + 1);
      DecelerationFixed(ls, v, p, i + 1, x);
    }
  }

  /** Soundness of the planned pointer: a new block changes nothing up to a breakpoint, and the
      breakpoint stays one. */
  lemma {:induction false} CacheSound(ls: seq<Limit>, v: real, p: nat, i: nat, x: Limit)
    requires Sane(ls) && Sane([x]) && 0.0 <= v && i <= p < |ls|
    requires Breakpoint(ls, v, p)
    ensures Plan(ls + [x], v, i) == Plan(ls, v, i)
    ensures i == p ==> Breakpoint(ls + [x], v, p)
  {
    if i > 0 {
      CacheSound(ls, v, p, i - 1, x);
      BackwardAppend(ls, x, i);
      if Plan(ls, v, i) == Backward(ls, i) {
        DecelerationFixed(ls, v, p, i, x);
      }
    }
  }

  /** Adding a block never forces an already planned entry to slow down. */
  lemma {:induction false} PlanMonotone(ls: seq<Limit>, v: real, i: nat, x: Limit)
    requires Sane(ls) && Sane([x]) && i < |ls|
    ensures Plan(ls, v, i) <= Plan(ls + [x], v, i)
  {
    if i > 0 {
      PlanMonotone(ls, v, i - 1, x);
      BackwardAppend(ls, x, i);
    }
  }

  lemma {:induction false} BackwardDrop(ls: seq<Limit>, i: nat)
    requires |ls| > 0 && i < |ls|
    ensures Backward(ls[1..], i) == Backward(ls, i + 1)
    decreases |ls| - i
  {
    if i + 1 < |ls| {
      BackwardDrop(ls, i + 1);
    }
  }

  /** Finishing the first block leaves the rest of the plan as it is. */
  lemma {:induction false} PlanDrop(ls: seq<Limit>, v: real, i: nat)
    requires i + 1 < |ls|
    ensures Plan(ls[1..], Plan(ls, v, 1), i) == Plan(ls, v, i + 1)
  {
    if i > 0 {
      PlanDrop(ls, v, i - 1);
      BackwardDrop(ls, i);
    }
  }

  lemma {:induction false} BackwardIgnoresFirst(ls: seq<Limit>, l: Limit, i: nat)
    requires 1 <= i <= |ls|
    ensures Backward(ls[0 := l], i) == Backward(ls, i)
    decreases |ls| - i
  {
    if i < |ls| {
      BackwardIgnoresFirst(ls, l, i + 1);
    }
  }

  /** Progress inside the executing block: speed v with `reach` to go becomes speed v1 with `reach1`
      to go, without outrunning the acceleration and staying able to reach the exit speed. */
  ghost predicate ProgressOk(v: real, reach: real, v1: real, reach1: real, exit: real) {
    && 0.0 <= v1 && 0.0 <= reach1
    && v1 + reach1 <= v + reach
    && exit - v1 <= reach1
    && v1 - exit <= reach1
  }

  ghost function ExitOf(ls: seq<Limit>, v: real): real
    requires |ls| > 0
  {
    if |ls| == 1 then 0.0 else Plan(ls, v, 1)
  }

  /** Progress of the executing block leaves the entry speeds of all later blocks optimal. */
  lemma {:induction false} PlanProgress(ls: seq<Limit>, v: real, v1: real, l: Limit, i: nat)
    requires 1 <= i < |ls|
    requires ProgressOk(v, ls[0].reach, v1, l.reach, ExitOf(ls, v))
    ensures Plan(ls[0 := l], v1, i) == Plan(ls, v, i)
  {
    BackwardIgnoresFirst(ls, l, i);
    if i > 1 {
      PlanProgress(ls, v, v1, l, i - 1);
    }
  }
}
