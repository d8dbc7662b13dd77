/** The look-ahead planner: a ring of motion blocks, the reverse and forward speed passes, and the
    `blockBufferPlanned` pointer that lets them skip the part of the plan known to be optimal. */
module Planner {
  import opened SpeedPlan
  import opened VelocityProfile

  const BLOCK_BUFFER_SIZE: nat := 18

  /** The speed fields of a planner block. Speeds are squared, in (mm/min)^2. */
  datatype PlanBlock = PlanBlock(
    entrySpeedSqr: real,
    maxEntrySpeedSqr: real,
    maxJunctionSpeedSqr: real,
    nominalSpeedSqr: real,
    acceleration: real,
    millimeters: real)

  function NextIndex(i: nat): (r: nat)
    requires i < BLOCK_BUFFER_SIZE
    ensures r < BLOCK_BUFFER_SIZE && PrevIndex(r) == i
  {
    if i + 1 == BLOCK_BUFFER_SIZE then 0 else i + 1
  }

  function PrevIndex(i: nat): (r: nat)
    requires i < BLOCK_BUFFER_SIZE
    ensures r < BLOCK_BUFFER_SIZE
  {
    if i == 0 then BLOCK_BUFFER_SIZE - 1 else i - 1
  }

  /** The ring position of the i-th block counted from the tail. */
  function Slot(tail: nat, i: nat): (r: nat)
    requires tail < BLOCK_BUFFER_SIZE && i < BLOCK_BUFFER_SIZE
    ensures r < BLOCK_BUFFER_SIZE
  {
    if tail + i < BLOCK_BUFFER_SIZE then tail + i else tail + i - BLOCK_BUFFER_SIZE
  }

  /** The change of squared speed possible across a block. */
  function SpeedGain(b: PlanBlock): real {
    Gain(b.acceleration, b.millimeters)
  }

  function LimitOf(b: PlanBlock): Limit {
    Limit(b.maxEntrySpeedSqr, SpeedGain(b))
  }

  ghost function LimitsOf(q: seq<PlanBlock>): (ls: seq<Limit>)
    ensures |ls| == |q|
    ensures forall i :: 0 <= i < |q| ==> ls[i] == LimitOf(q[i])
  {
    seq(|q|, i requires 0 <= i < |q| => LimitOf(q[i]))
  }

  /** Queues whose blocks differ in nothing but their entry speeds. */
  ghost predicate SameBlocks(q: seq<PlanBlock>, r: seq<PlanBlock>) {
    && |q| == |r|
    && forall i :: 0 <= i < |q| ==> q[i] == r[i].(entrySpeedSqr := q[i].entrySpeedSqr)
  }

  lemma SameLimits(q: seq<PlanBlock>, r: seq<PlanBlock>)
    requires SameBlocks(q, r)
    ensures LimitsOf(q) == LimitsOf(r)
  {
    forall i | 0 <= i < |q| ensures LimitsOf(q)[i] == LimitsOf(r)[i] {
      assert q[i] == r[i].(entrySpeedSqr := q[i].entrySpeedSqr);
    }
  }

  ghost predicate BlockOk(b: PlanBlock) {
    && b.acceleration > 0.0 && b.millimeters > 0.0
    && 0.0 <= b.maxEntrySpeedSqr <= b.nominalSpeedSqr
    && b.nominalSpeedSqr > 0.0
  }

  /** Every block is well formed and no junction is planned faster than the block before it may run. */
  ghost predicate BlocksOk(q: seq<PlanBlock>) {
    && (forall i :: 0 <= i < |q| ==> BlockOk(q[i]))
    && (forall i :: 1 <= i < |q| ==> JunctionOk(q, i))
  }

  ghost predicate JunctionOk(q: seq<PlanBlock>, i: nat)
    requires 1 <= i < |q|
  {
    q[i].maxEntrySpeedSqr <= q[i - 1].nominalSpeedSqr
  }

  lemma LimitsSane(q: seq<PlanBlock>)
    requires BlocksOk(q)
    ensures Sane(LimitsOf(q))
  {
    forall i | 0 <= i < |q| ensures LimitsOf(q)[i].reach >= 0.0 && LimitsOf(q)[i].cap >= 0.0 {
      assert BlockOk(q[i]);
      GainMonotone(q[i].acceleration, 0.0, q[i].millimeters);
    }
  }

  // Entry speeds compared with the reference passes; named so that quantifiers over them stay inert.
  ghost predicate AtPlan(q: seq<PlanBlock>, ls: seq<Limit>, v: real, i: nat)
    requires i < |q| == |ls|
  {
    q[i].entrySpeedSqr == Plan(ls, v, i)
  }

  ghost predicate AtBackward(q: seq<PlanBlock>, ls: seq<Limit>, i: nat)
    requires i < |q| == |ls|
  {
    q[i].entrySpeedSqr == Backward(ls, i)
  }

  ghost predicate CanStopFrom(q: seq<PlanBlock>, ls: seq<Limit>, i: nat)
    requires i < |q| == |ls|
  {
    q[i].entrySpeedSqr <= Backward(ls, i)
  }

  /** The plan for queue q is the one two full passes from the tail would give, when the machine
      moves at squared speed v in the tail block, and `planned` is an optimal breakpoint of it. */
  ghost predicate OptimalPlan(q: seq<PlanBlock>, v: real, planned: nat) {
    |q| > 0 ==>
      && planned < |q|
      && 0.0 <= v <= q[0].nominalSpeedSqr
      && CanStop(LimitsOf(q), v)
      && (forall i :: 1 <= i < |q| ==> AtPlan(q, LimitsOf(q), v, i))
      && Breakpoint(LimitsOf(q), v, planned)
  }

  /** The tail's stored entry speed is no part of what makes a plan optimal. */
  lemma OptimalIgnoresEntry(q: seq<PlanBlock>, v: real, planned: nat, entry: real)
    requires |q| > 0 && OptimalPlan(q, v, planned)
    ensures OptimalPlan(q[0 := q[0].(entrySpeedSqr := entry)], v, planned)
  {
    var r := q[0 := q[0].(entrySpeedSqr := entry)];
    SameLimits(r, q);
    forall i | 1 <= i < |r| ensures AtPlan(r, LimitsOf(r), v, i) {
      assert AtPlan(q, LimitsOf(q), v, i);
    }
  }

  /** The entry speeds of q, with the tail block taken at its present speed v. */
  ghost function EntrySpeeds(q: seq<PlanBlock>, v: real): (f: seq<real>)
    ensures |f| == |q| && forall i :: 0 <= i < |q| ==> f[i] == if i == 0 then v else q[i].entrySpeedSqr
  {
    seq(|q|, i requires 0 <= i < |q| => if i == 0 then v else q[i].entrySpeedSqr)
  }

  /** An optimal plan is feasible, and no feasible plan from the same speed is faster at any block. */
  lemma OptimalPlanIsGreatest(q: seq<PlanBlock>, v: real, planned: nat)
    requires BlocksOk(q) && |q| > 0 && OptimalPlan(q, v, planned)
    ensures Feasible(LimitsOf(q), EntrySpeeds(q, v))
    ensures forall f, i :: Feasible(LimitsOf(q), f) && f[0] == v && 0 <= i < |q| ==> f[i] <= EntrySpeeds(q, v)[i]
  {
    var ls := LimitsOf(q);
    LimitsSane(q);
    PlanFeasible(ls, v);
    forall i | 1 <= i < |q| ensures EntrySpeeds(q, v)[i] == PlanAll(ls, v)[i] {
      assert AtPlan(q, ls, v, i);
    }
    assert EntrySpeeds(q, v) == PlanAll(ls, v);
    forall f, i: nat | Feasible(ls, f) && f[0] == v && i < |q|
      ensures f[i] <= EntrySpeeds(q, v)[i]
    {
      PlanGreatest(ls, f, i);
    }
  }

  /** A block whose plan is optimal can be run at its planned entry and exit speeds. */
  lemma OptimalPlanReachable(q: seq<PlanBlock>, v: real, planned: nat)
    requires BlocksOk(q) && |q| > 0 && OptimalPlan(q, v, planned)
    ensures Reachable(v, ExitOf(LimitsOf(q), v), q[0].nominalSpeedSqr, q[0].acceleration, q[0].millimeters)
  {
    var ls := LimitsOf(q);
    LimitsSane(q);
    assert ls[0] == LimitOf(q[0]) && BlockOk(q[0]);
    if |q| > 1 {
      PlanBounds(ls, v, 1);
      assert JunctionOk(q, 1);
    }
  }

  /** Appending a block: what the planned pointer covers stays optimal, and the rest can be replanned. */
  lemma OptimalPlanAppend(q: seq<PlanBlock>, v: real, planned: nat, b: PlanBlock)
    requires Sane(LimitsOf(q)) && Sane([LimitOf(b)]) && |q| > 0 && OptimalPlan(q, v, planned)
    ensures CanStop(LimitsOf(q + [b]), v) && Replannable(q + [b], v, planned)
  {
    var ls, x := LimitsOf(q), LimitOf(b);
    assert x == [x][0];
    assert LimitsOf(q + [b]) == ls + [x];
    BackwardAppend(ls, x, 1);
    forall i | 1 <= i <= planned ensures AtPlan(q + [b], ls + [x], v, i) {
      assert AtPlan(q, ls, v, i);
      CacheSound(ls, v, planned, i, x);
    }
    CacheSound(ls, v, planned, planned, x);
    forall i | 1 <= i < |q| ensures CanStopFrom(q + [b], ls + [x], i) {
      assert AtPlan(q, ls, v, i);
      BackwardAppend(ls, x, i);
      PlanBounds(ls, v, i);
    }
  }

  lemma BlocksAppend(q: seq<PlanBlock>, b: PlanBlock)
    requires BlockOk(b) && BlocksOk(q) && (q != [] ==> b.maxEntrySpeedSqr <= q[|q| - 1].nominalSpeedSqr)
    ensures BlocksOk(q + [b]) && Sane(LimitsOf(q)) && Sane([LimitOf(b)])
  {
    forall i | 1 <= i < |q + [b]| ensures JunctionOk(q + [b], i) {
      assert i < |q| ==> JunctionOk(q, i);
    }
    LimitsSane(q);
    LimitsSane([b]);
    assert LimitsOf([b]) == [LimitOf(b)];
  }

  /** The state in which a new block is handed to the recalculation. */
  lemma AppendReady(q: seq<PlanBlock>, v: real, planned: nat, b: PlanBlock)
    requires BlockOk(b) && BlocksOk(q) && (q != [] ==> b.maxEntrySpeedSqr <= q[|q| - 1].nominalSpeedSqr)
    requires if q == [] then v == 0.0 && planned == 0 else OptimalPlan(q, v, planned)
    ensures Replannable(q + [b], v, planned) && CanStop(LimitsOf(q + [b]), v)
  {
    BlocksAppend(q, b);
    if q != [] {
      OptimalPlanAppend(q, v, planned, b);
    } else {
      assert LimitsOf(q + [b]) == [LimitOf(b)];
      assert LimitsOf(q + [b])[0].reach >= 0.0;
    }
  }

  /** Discarding the finished tail block. */
  lemma OptimalPlanDiscard(q: seq<PlanBlock>, v: real, planned: nat)
    requires Sane(LimitsOf(q)) && |q| > 1 && q[1].maxEntrySpeedSqr <= q[1].nominalSpeedSqr && OptimalPlan(q, v, planned)
    ensures OptimalPlan(q[1..], q[1].entrySpeedSqr, if planned == 0 then 0 else planned - 1)
  {
    var ls, r := LimitsOf(q), q[1..];
    assert LimitsOf(r) == ls[1..];
    var w := q[1].entrySpeedSqr;
    PlanBounds(ls, v, 1);
    BackwardDrop(ls, 1);
    assert AtPlan(q, ls, v, 1);
    forall i | 1 <= i < |r| ensures AtPlan(r, ls[1..], w, i) {
      assert AtPlan(q, ls, v, i + 1);
      PlanDrop(ls, v, i);
    }
    if planned > 1 {
      PlanDrop(ls, v, planned - 1);
      BackwardDrop(ls, planned - 1);
    }
  }

  lemma PlannedExit(q: seq<PlanBlock>, v: real, planned: nat)
    requires |q| > 0 && OptimalPlan(q, v, planned)
    ensures ExitOf(LimitsOf(q), v) == StoredExit(q, 0)
  {
    assert |q| > 1 ==> AtPlan(q, LimitsOf(q), v, 1);
  }

  lemma DiscardKeeps(q: seq<PlanBlock>, v: real, planned: nat)
    requires BlocksOk(q) && |q| > 0
    ensures BlocksOk(q[1..])
    ensures OptimalPlan(q, v, planned) && |q| > 1 ==> OptimalPlan(q[1..], q[1].entrySpeedSqr, if planned == 0 then 0 else planned - 1)
    ensures OptimalPlan(q, v, planned) ==> ExitOf(LimitsOf(q), v) == StoredExit(q, 0)
    ensures StoppablePlan(q) ==> StoppablePlan(q[1..])
  {
    BlocksDiscard(q);
    if |q| > 1 && OptimalPlan(q, v, planned) {
      assert BlockOk(q[1]) && AtPlan(q, LimitsOf(q), v, 1);
      OptimalPlanDiscard(q, v, planned);
    }
    if StoppablePlan(q) {
      StoppableTail(q, q[0]);
    }
  }

  /** A speed no higher than the planned exit is within the next block's limits. */
  lemma NextBrakes(q: seq<PlanBlock>, v: real)
    requires BlocksOk(q) && |q| > 1 && StoppablePlan(q) && v <= q[1].entrySpeedSqr
    ensures v <= q[1].nominalSpeedSqr && v <= StoredExit(q[1..], 0) + SpeedGain(q[1])
  {
    assert BrakesFrom(q, 1, q[1].entrySpeedSqr) && BlockOk(q[1]);
  }

  lemma StoredExitOk(q: seq<PlanBlock>)
    requires StoppablePlan(q)
    ensures StoredExit(q, 0) >= 0.0
  {
    if |q| > 1 {
      assert BrakesFrom(q, 1, q[1].entrySpeedSqr);
    }
  }

  lemma TailOk(q: seq<PlanBlock>)
    requires BlocksOk(q) && q != []
    ensures BlockOk(q[0])
  {
  }

  lemma BlocksTail(q: seq<PlanBlock>, b: PlanBlock)
    requires BlocksOk(q) && |q| > 0 && BlockOk(b) && b.nominalSpeedSqr == q[0].nominalSpeedSqr
    ensures BlocksOk(q[0 := b])
  {
    var r := q[0 := b];
    forall i | 1 <= i < |r| ensures JunctionOk(r, i) {
      assert JunctionOk(q, i);
    }
  }

  lemma StoppedTail(q: seq<PlanBlock>)
    requires BlocksOk(q) && |q| > 0 && StoppablePlan(q)
    ensures BlocksOk(q[0 := q[0].(entrySpeedSqr := 0.0)]) && StoppablePlan(q[0 := q[0].(entrySpeedSqr := 0.0)])
  {
    assert BlockOk(q[0]);
    BlocksTail(q, q[0].(entrySpeedSqr := 0.0));
    StoppableTail(q, q[0].(entrySpeedSqr := 0.0));
  }

  lemma BlocksDiscard(q: seq<PlanBlock>)
    requires BlocksOk(q) && |q| > 0
    ensures BlocksOk(q[1..]) && Sane(LimitsOf(q))
  {
    LimitsSane(q);
    forall i | 1 <= i < |q[1..]| ensures JunctionOk(q[1..], i) {
      assert JunctionOk(q, i + 1);
    }
  }

  /** Progress within the executing block. */
  lemma OptimalPlanProgress(q: seq<PlanBlock>, v: real, planned: nat, v1: real, mm: real)
    requires BlocksOk(q) && |q| > 0 && OptimalPlan(q, v, planned) && mm > 0.0 && v1 <= q[0].nominalSpeedSqr
    requires ProgressOk(v, SpeedGain(q[0]), v1, Gain(q[0].acceleration, mm), ExitOf(LimitsOf(q), v))
    ensures OptimalPlan(q[0 := q[0].(millimeters := mm)], v1, planned)
    ensures ExitOf(LimitsOf(q[0 := q[0].(millimeters := mm)]), v1) == ExitOf(LimitsOf(q), v)
  {
    var ls, r := LimitsOf(q), q[0 := q[0].(millimeters := mm)];
    var l := LimitOf(r[0]);
    assert LimitsOf(r) == ls[0 := l];
    BackwardIgnoresFirst(ls, l, 1);
    LimitsSane(q);
    if planned > 0 {
      BackwardIgnoresFirst(ls, l, planned);
      PlanProgress(ls, v, v1, l, planned);
    }
    if |q| > 1 {
      PlanProgress(ls, v, v1, l, 1);
    }
    forall i | 1 <= i < |q| ensures AtPlan(r, LimitsOf(r), v1, i) {
      assert AtPlan(q, ls, v, i);
      PlanProgress(ls, v, v1, l, i);
    }
  }

  /** The planned exit speed, squared, of the tail block. */
  ghost function StoredExit(q: seq<PlanBlock>, i: nat): real {
    if i + 1 < |q| then q[i + 1].entrySpeedSqr else 0.0
  }

  /** Block i can be entered at squared speed v and braked to its planned exit. */
  ghost predicate BrakesFrom(q: seq<PlanBlock>, i: nat, v: real)
    requires i < |q|
  {
    0.0 <= v <= q[i].maxEntrySpeedSqr && v <= StoredExit(q, i) + SpeedGain(q[i])
  }

  /** What survives while a feed hold overrides the plan: every later block can be braked from its planned
      entry to its planned exit. */
  ghost predicate StoppablePlan(q: seq<PlanBlock>) {
    forall i :: 1 <= i < |q| ==> BrakesFrom(q, i, q[i].entrySpeedSqr)
  }

  lemma {:induction false} BrakingStops(q: seq<PlanBlock>, i: nat)
    requires StoppablePlan(q) && 1 <= i < |q|
    ensures CanStopFrom(q, LimitsOf(q), i)
    decreases |q| - i
  {
    assert BrakesFrom(q, i, q[i].entrySpeedSqr);
    if i + 1 < |q| {
      BrakingStops(q, i + 1);
    }
  }

  lemma PlanBrakes(q: seq<PlanBlock>, v: real, i: nat)
    requires Sane(LimitsOf(q)) && 0.0 <= v && i < |q| && (i > 0 ==> AtPlan(q, LimitsOf(q), v, i))
    requires i + 1 < |q| ==> AtPlan(q, LimitsOf(q), v, i + 1)
    requires i == 0 ==> CanStop(LimitsOf(q), v)
    ensures i > 0 ==> BrakesFrom(q, i, q[i].entrySpeedSqr)
    ensures i == 0 ==> v <= StoredExit(q, 0) + SpeedGain(q[0])
  {
    var ls := LimitsOf(q);
    PlanBounds(ls, v, i);
    assert ls[i] == LimitOf(q[i]) && ls[i].reach >= 0.0;
  }

  /** From an optimal plan every later block can be braked, and so can the tail from its present speed. */
  lemma OptimalIsStoppable(q: seq<PlanBlock>, v: real, planned: nat)
    requires BlocksOk(q) && OptimalPlan(q, v, planned)
    ensures StoppablePlan(q)
    ensures |q| > 0 ==> 0.0 <= v <= StoredExit(q, 0) + SpeedGain(q[0])
  {
    LimitsSane(q);
    hide BlocksOk, AtPlan, BrakesFrom, CanStop, Breakpoint, SpeedGain, StoredExit;
    if |q| > 0 {
      PlanBrakes(q, v, 0);
    }
    forall i | 1 <= i < |q| ensures BrakesFrom(q, i, q[i].entrySpeedSqr) {
      assert AtPlan(q, LimitsOf(q), v, i);
      PlanBrakes(q, v, i);
    }
  }

  /** Nothing that happens inside the tail block, nor discarding it, harms a stoppable plan. */
  lemma StoppableTail(q: seq<PlanBlock>, b: PlanBlock)
    requires |q| > 0 && StoppablePlan(q)
    ensures StoppablePlan(q[0 := b]) && StoppablePlan(q[1..])
    ensures |q| > 1 ==> BrakesFrom(q[1..], 0, q[1].entrySpeedSqr)
  {
    var r, t := q[0 := b], q[1..];
    forall i | 1 <= i < |q|
      ensures BrakesFrom(r, i, r[i].entrySpeedSqr) && BrakesFrom(t, i - 1, t[i - 1].entrySpeedSqr)
    {
      assert BrakesFrom(q, i, q[i].entrySpeedSqr);
    }
  }

  /** Replanning from standstill at the tail gives an optimal plan whatever the hold did before. */
  lemma ReplanFromStandstill(q: seq<PlanBlock>)
    requires BlocksOk(q) && |q| > 0 && StoppablePlan(q)
    ensures Replannable(q, 0.0, 0) && CanStop(LimitsOf(q), 0.0) && 0.0 <= q[0].nominalSpeedSqr
  {
    LimitsSane(q);
    BackwardBounds(LimitsOf(q), 1);
    assert LimitsOf(q)[0].reach >= 0.0 && BlockOk(q[0]);
    forall i | 0 < i < |q| - 1 ensures CanStopFrom(q, LimitsOf(q), i) {
      BrakingStops(q, i);
    }
  }

  // ---- The recalculation ----

  /** A queue and the number of blocks before its planned pointer. */
  datatype Replan = Replan(queue: seq<PlanBlock>, planned: nat)

  function WithEntry(q: seq<PlanBlock>, k: nat, speedSqr: real): (r: seq<PlanBlock>)
    requires k < |q|
    ensures |r| == |q|
  {
    q[k := q[k].(entrySpeedSqr := speedSqr)]
  }

  /** The reverse pass at block k: a block already at its maximum is skipped, except the last. */
  function Slowed(q: seq<PlanBlock>, k: nat): real
    requires k < |q|
  {
    if k + 1 == |q| then Min(q[k].maxEntrySpeedSqr, SpeedGain(q[k]))
    else if q[k].entrySpeedSqr == q[k].maxEntrySpeedSqr then q[k].entrySpeedSqr
    else Min(q[k + 1].entrySpeedSqr + SpeedGain(q[k]), q[k].maxEntrySpeedSqr)
  }

  /** The reverse pass from block k back to the one after the planned pointer. */
  function ReverseFrom(q: seq<PlanBlock>, k: nat, p: nat): (r: seq<PlanBlock>)
    requires p <= k < |q|
    ensures |r| == |q|
    decreases k
  {
    if k == p then q else ReverseFrom(WithEntry(q, k, Slowed(q, k)), k - 1, p)
  }

  /** The whole reverse pass. Reaching the tail, it refreshes the tail's entry speed with its present one. */
  function ReverseAll(q: seq<PlanBlock>, v: real, p: nat): (r: seq<PlanBlock>)
    requires p < |q|
    ensures |r| == |q|
  {
    var r := ReverseFrom(q, |q| - 1, p);
    if p == 0 then WithEntry(r, 0, v) else r
  }

  /** The forward pass at block j. */
  function Reached(q: seq<PlanBlock>, j: nat): real
    requires 1 <= j < |q|
  {
    var speedSqr := q[j - 1].entrySpeedSqr + SpeedGain(q[j - 1]);
    if q[j - 1].entrySpeedSqr < q[j].entrySpeedSqr && speedSqr < q[j].entrySpeedSqr then speedSqr else q[j].entrySpeedSqr
  }

  /** The forward pass from block j on; the pointer moves to every block slowed down, or at its maximum. */
  function ForwardFrom(q: seq<PlanBlock>, p: nat, j: nat): Replan
    requires 1 <= j <= |q|
    decreases |q| - j
  {
    if j == |q| then Replan(q, p)
    else
      var speedSqr := Reached(q, j);
      var moves := speedSqr < q[j].entrySpeedSqr || speedSqr == q[j].maxEntrySpeedSqr;
      ForwardFrom(WithEntry(q, j, speedSqr), if moves then j else p, j + 1)
  }

  /** The recalculation: both passes from the planned pointer p on, and nothing before it. */
  function Recalculate(q: seq<PlanBlock>, v: real, p: nat): Replan
    requires p < |q|
  {
    if p + 1 == |q| then Replan(q, p) else ForwardFrom(ReverseAll(q, v, p), p, p + 1)
  }

  /** The reverse pass over queue q has replanned every block after the k-th, giving r. */
  ghost predicate Reversed(q: seq<PlanBlock>, r: seq<PlanBlock>, ls: seq<Limit>, k: nat) {
    && |q| == |r| == |ls| && k < |q|
    && SameBlocks(r, q)
    && (forall i :: k < i < |q| ==> AtBackward(r, ls, i))
    && (forall i :: 0 <= i <= k ==> r[i] == q[i])
  }

  /** The skipping reverse pass gives what the reference pass gives. */
  lemma {:induction false} ReverseReached(q: seq<PlanBlock>, r: seq<PlanBlock>, ls: seq<Limit>, k: nat, p: nat)
    requires Sane(ls) && ls == LimitsOf(q) && Reversed(q, r, ls, k) && p <= k
    requires forall i :: p < i < |q| - 1 ==> CanStopFrom(q, ls, i)
    ensures Reversed(q, ReverseFrom(r, k, p), ls, p)
    decreases k
  {
    if k > p {
      BackwardBounds(ls, k);
      if k + 1 < |q| {
        assert AtBackward(r, ls, k + 1) && CanStopFrom(q, ls, k);
      }
      var s := WithEntry(r, k, Slowed(r, k));
      assert AtBackward(s, ls, k);
      ReversedStep(q, r, ls, k, s);
      ReverseReached(q, s, ls, k - 1, p);
    }
  }

  lemma ReversedStep(q: seq<PlanBlock>, r: seq<PlanBlock>, ls: seq<Limit>, k: nat, s: seq<PlanBlock>)
    requires Reversed(q, r, ls, k) && 1 <= k && s == WithEntry(r, k, Backward(ls, k))
    ensures Reversed(q, s, ls, k - 1)
  {
    forall i | k - 1 < i < |q| ensures AtBackward(s, ls, i) {
      assert i > k ==> AtBackward(r, ls, i);
    }
  }

  /** The forward pass over queue q has reached the j-th block, giving r. */
  ghost predicate Forwarded(q: seq<PlanBlock>, r: seq<PlanBlock>, ls: seq<Limit>, v: real, j: nat) {
    && |q| == |r| == |ls| && 0 < j <= |q| && r[0] == q[0]
    && SameBlocks(r, q)
    && (forall i :: 1 <= i < j ==> AtPlan(r, ls, v, i))
    && (forall i :: j <= i < |q| ==> r[i] == q[i])
  }

  /** Blocks that satisfy the forward pass's precondition. */
  ghost predicate ReadyForward(r: seq<PlanBlock>, ls: seq<Limit>, v: real, p: nat) {
    && p < |r| == |ls|
    && (forall i :: 0 <= i < |r| ==> ls[i] == LimitOf(r[i]))
    && (forall i :: p < i < |r| ==> AtBackward(r, ls, i))
    && (forall i :: 1 <= i <= p ==> AtPlan(r, ls, v, i))
  }

  lemma ForwardedStep(q: seq<PlanBlock>, r: seq<PlanBlock>, ls: seq<Limit>, v: real, p: nat, j: nat)
    requires ReadyForward(q, ls, v, p) && Forwarded(q, r, ls, v, j) && p < j < |q|
    requires p == 0 ==> q[0].entrySpeedSqr == v
    ensures ls[j - 1] == LimitOf(r[j - 1]) && ls[j] == LimitOf(r[j])
    ensures r[j - 1].entrySpeedSqr == Plan(ls, v, j - 1) && r[j].entrySpeedSqr == Backward(ls, j)
    ensures Forwarded(q, r[j := r[j].(entrySpeedSqr := Plan(ls, v, j))], ls, v, j + 1)
  {
    assert AtBackward(q, ls, j);
    assert 1 <= j - 1 ==> AtPlan(r, ls, v, j - 1);
    var s := r[j := r[j].(entrySpeedSqr := Plan(ls, v, j))];
    forall i | 1 <= i < j + 1 ensures AtPlan(s, ls, v, i) {
      assert i < j ==> AtPlan(r, ls, v, i);
    }
  }

  /** The forward pass turns the deceleration limits into the plan, and stops its pointer on a breakpoint. */
  lemma {:induction false} ForwardReached(q: seq<PlanBlock>, r: seq<PlanBlock>, ls: seq<Limit>, v: real, p0: nat, p: nat, j: nat)
    requires Sane(ls) && ReadyForward(q, ls, v, p0) && Forwarded(q, r, ls, v, j) && p0 < j && p < j
    requires Breakpoint(ls, v, p) && (p0 == 0 ==> q[0].entrySpeedSqr == v)
    ensures var t := ForwardFrom(r, p, j); Forwarded(q, t.queue, ls, v, |q|) && t.planned < |q| && Breakpoint(ls, v, t.planned)
    decreases |q| - j
  {
    if j < |q| {
      ForwardedStep(q, r, ls, v, p0, j);
      assert ls[j - 1].reach >= 0.0;
      var speedSqr := Reached(r, j);
      assert speedSqr == Plan(ls, v, j);
      var moves := speedSqr < r[j].entrySpeedSqr || speedSqr == r[j].maxEntrySpeedSqr;
      ForwardReached(q, WithEntry(r, j, speedSqr), ls, v, p0, if moves then j else p, j + 1);
    }
  }

  /** What a recalculation starting at block p needs: the plan up to p is final, and no later entry
      speed is beyond stopping (so that an entry at its cap may be skipped). */
  ghost predicate Replannable(q: seq<PlanBlock>, v: real, p: nat) {
    && p < |q| && Sane(LimitsOf(q)) && 0.0 <= v && Breakpoint(LimitsOf(q), v, p)
    && (forall i :: 1 <= i <= p ==> AtPlan(q, LimitsOf(q), v, i))
    && (forall i :: p < i < |q| - 1 ==> CanStopFrom(q, LimitsOf(q), i))
  }

  /** What a recalculation gives: after the tail, exactly the plan of two full passes. */
  ghost predicate Replanned(q: seq<PlanBlock>, r: seq<PlanBlock>, v: real, p: nat) {
    && p < |q| == |r| && Breakpoint(LimitsOf(q), v, p)
    && SameBlocks(r, q)
    && (forall i :: 1 <= i < |q| ==> AtPlan(r, LimitsOf(q), v, i))
  }

  /** The recalculation is sound: starting at a breakpoint it gives exactly the plan of the two full passes,
      and a breakpoint of that plan. */
  lemma RecalculateReplans(q: seq<PlanBlock>, v: real, p: nat)
    requires Replannable(q, v, p)
    ensures var t := Recalculate(q, v, p);
      && Replanned(q, t.queue, v, t.planned)
      && t.queue[0] == if p == 0 && |q| > 1 then q[0].(entrySpeedSqr := v) else q[0]
  {
    if p + 1 < |q| {
      var ls, r := LimitsOf(q), ReverseAll(q, v, p);
      ReverseReached(q, q, ls, |q| - 1, p);
      SameLimits(r, q);
      forall i | 1 <= i <= p ensures AtPlan(r, ls, v, i) {
        assert AtPlan(q, ls, v, i);
      }
      forall i | p < i < |q| ensures AtBackward(r, ls, i) {
        assert AtBackward(ReverseFrom(q, |q| - 1, p), ls, i);
      }
      ForwardReached(r, r, ls, v, p, p, p + 1);
    }
  }

  /** A recalculation gives an optimal plan. */
  lemma ReplannedOptimal(q: seq<PlanBlock>, r: seq<PlanBlock>, v: real, p: nat)
    requires Replanned(q, r, v, p) && r[0] == q[0].(entrySpeedSqr := r[0].entrySpeedSqr)
    requires BlocksOk(q) && 0.0 <= v <= q[0].nominalSpeedSqr && CanStop(LimitsOf(q), v)
    ensures OptimalPlan(r, v, p) && BlocksOk(r) && LimitsOf(r) == LimitsOf(q)
  {
    assert SameBlocks(r, q);
    SameLimits(r, q);
    forall i | 0 <= i < |r| ensures BlockOk(r[i]) {
      assert BlockOk(q[i]);
    }
    forall i | 1 <= i < |r| ensures JunctionOk(r, i) {
      assert JunctionOk(q, i);
    }
  }

  /** A recalculation after an append keeps every block's data, every cached entry speed, and the exit
      speed of a tail block that lies before the planned pointer. */
  lemma ReplannedKeeps(q: seq<PlanBlock>, b: PlanBlock, r: seq<PlanBlock>, v: real, p: nat, p1: nat)
    requires Replannable(q + [b], v, p) && Replanned(q + [b], r, v, p1) && r[0] == (q + [b])[0].(entrySpeedSqr := r[0].entrySpeedSqr)
    ensures SameBlocks(r[..|q|], q) && r[|q|] == b.(entrySpeedSqr := r[|q|].entrySpeedSqr)
    ensures forall i :: 1 <= i <= p && i < |q| ==> r[i] == q[i]
  {
    assert forall i :: 0 <= i < |q| ==> (q + [b])[i] == q[i];
    assert SameBlocks(r, q + [b]);
    forall i | 1 <= i <= p && i < |q| ensures r[i] == q[i] {
      assert AtPlan(q + [b], LimitsOf(q + [b]), v, i) && AtPlan(r, LimitsOf(q + [b]), v, i);
    }
  }

  /** Everything an append keeps, in one place. */
  lemma Appended(q: seq<PlanBlock>, b: PlanBlock, r: seq<PlanBlock>, v: real, p: nat, p1: nat)
    requires BlockOk(b) && BlocksOk(q) && (q != [] ==> b.maxEntrySpeedSqr <= q[|q| - 1].nominalSpeedSqr)
    requires if q == [] then v == 0.0 && p == 0 else OptimalPlan(q, v, p)
    requires Replanned(q + [b], r, v, p1) && r[0] == (q + [b])[0].(entrySpeedSqr := r[0].entrySpeedSqr)
    ensures OptimalPlan(r, v, p1) && BlocksOk(r)
    ensures SameBlocks(r[..|q|], q) && r[|q|] == b.(entrySpeedSqr := r[|q|].entrySpeedSqr)
    ensures forall i :: 1 <= i <= p && i < |q| ==> r[i] == q[i]
    ensures p > 0 ==> ExitOf(LimitsOf(r), v) == ExitOf(LimitsOf(q), v)
  {
    BlocksAppend(q, b);
    AppendReady(q, v, p, b);
    ReplannedOptimal(q + [b], r, v, p1);
    ReplannedKeeps(q, b, r, v, p, p1);
    if p > 0 {
      var x := LimitOf(b);
      assert x == [x][0];
      assert LimitsOf(q + [b]) == LimitsOf(q) + [x];
      CacheSound(LimitsOf(q), v, p, 1, x);
    }
  }

  class Planner {
    const blockBuffer: array<PlanBlock>
    var blockBufferTail: nat
    var blockBufferHead: nat
    var nextBufferHead: nat
    var blockBufferPlanned: nat
    var previousNominalSpeedSqr: real
    // What planner and stepper share: whether a block is being prepared, at what speeds, and whether a
    // block partly prepared is to be taken up again.
    var executing: bool
    var partialBlock: bool
    var currentSpeed: real
    var exitSpeed: real
    // The queued blocks, oldest first, and how many of them lie before the planned pointer.
    ghost var queue: seq<PlanBlock>
    ghost var planned: nat

    ghost predicate RingOk()
      reads this, blockBuffer
    {
      && blockBuffer.Length == BLOCK_BUFFER_SIZE
      && blockBufferTail < BLOCK_BUFFER_SIZE
      && |queue| < BLOCK_BUFFER_SIZE && planned <= |queue|
      && blockBufferHead == Slot(blockBufferTail, |queue|)
      && blockBufferPlanned == Slot(blockBufferTail, planned)
      && nextBufferHead == NextIndex(blockBufferHead)
      && forall i :: 0 <= i < |queue| ==> blockBuffer[Slot(blockBufferTail, i)] == queue[i]
    }

    /** Squared speed of the machine within the tail block at the end of what has been prepared. */
    ghost function SpeedSqr(): real
      reads this
    {
      if executing || |queue| == 0 then Square(currentSpeed) else queue[0].entrySpeedSqr
    }

    ghost predicate Valid()
      reads this, blockBuffer
    {
      && RingOk()
      && BlocksOk(queue)
      && (|queue| == 0 ==> planned == 0 && !executing)
      && (|queue| > 0 ==> planned < |queue| && previousNominalSpeedSqr == queue[|queue| - 1].nominalSpeedSqr)
      && previousNominalSpeedSqr >= 0.0 && currentSpeed >= 0.0 && exitSpeed >= 0.0
      && (partialBlock ==> !executing && |queue| > 0 && queue[0].entrySpeedSqr == Square(currentSpeed))
    }

    /** Normal operation: the plan is optimal, and the exit speed the stepper was given for the
        executing block is still the planned one, and between blocks the planned entry of the next. */
    ghost predicate Optimal()
      reads this
    {
      && OptimalPlan(queue, SpeedSqr(), planned)
      && (executing && |queue| > 0 ==> Square(exitSpeed) == ExitOf(LimitsOf(queue), SpeedSqr()))
      && (!executing && !partialBlock ==> Square(exitSpeed) == if queue == [] then 0.0 else queue[0].entrySpeedSqr)
    }

    /** Squared speed at which a hold takes up the tail block. */
    ghost function HeldSpeedSqr(): real
      reads this
    {
      if partialBlock then Square(currentSpeed) else Square(exitSpeed)
    }

    /** A feed hold is decelerating: no speed is beyond braking to the planned exits, the executing block is
        left no faster than planned, and the next one is taken up within its limits. */
    ghost predicate Slowing()
      reads this
    {
      && StoppablePlan(queue)
      && if queue == [] then Square(exitSpeed) == 0.0
         else if executing then Square(exitSpeed) <= StoredExit(queue, 0)
         else HeldSpeedSqr() <= queue[0].nominalSpeedSqr && HeldSpeedSqr() <= StoredExit(queue, 0) + SpeedGain(queue[0])
    }

    constructor ()
      ensures Valid() && Optimal() && queue == []
      ensures fresh(blockBuffer)
    {
      blockBuffer := new PlanBlock[BLOCK_BUFFER_SIZE](_ => PlanBlock(0.0, 0.0, 0.0, 0.0, 0.0, 0.0));
      blockBufferTail, blockBufferHead, nextBufferHead, blockBufferPlanned := 0, 0, 1, 0;
      previousNominalSpeedSqr := 0.0;
      executing, partialBlock, currentSpeed, exitSpeed := false, false, 0.0, 0.0;
      queue, planned := [], 0;
    }

    /** Sets the entry speed of the block in ring slot `index`, the k-th of the queue. */
    method SetEntrySpeed(index: nat, entrySpeedSqr: real, ghost k: nat)
      requires RingOk() && k < |queue| && index == Slot(blockBufferTail, k)
      modifies this`queue, blockBuffer
      ensures RingOk() && queue == old(queue)[k := old(queue)[k].(entrySpeedSqr := entrySpeedSqr)]
      ensures k > 0 ==> SpeedSqr() == old(SpeedSqr())
    {
      blockBuffer[index] := blockBuffer[index].(entrySpeedSqr := entrySpeedSqr);
      queue := queue[k := queue[k].(entrySpeedSqr := entrySpeedSqr)];
    }

    method StUpdatePlanBlockParameters()
      requires RingOk() && |queue| > 0
      modifies this`executing, this`partialBlock, this`queue, blockBuffer
      ensures !executing && partialBlock == (old(partialBlock) || old(executing)) && SpeedSqr() == old(SpeedSqr())
      ensures RingOk() && queue == old(queue)[0 := old(queue)[0].(entrySpeedSqr := old(SpeedSqr()))]
    {
      if executing {
        SetEntrySpeed(blockBufferTail, Square(currentSpeed), 0);
        executing, partialBlock := false, true;
      }
    }

    /** The reverse pass, from the newest block back to the one after `blockBufferPlanned`. */
    method ReversePass()
      requires RingOk() && planned + 1 < |queue|
      modifies this`executing, this`partialBlock, this`queue, blockBuffer
      ensures RingOk() && queue == ReverseAll(old(queue), old(SpeedSqr()), planned) && SpeedSqr() == old(SpeedSqr())
      ensures executing == (old(executing) && planned > 0) && partialBlock == (old(partialBlock) || (old(executing) && !executing))
    {
      var current := PrevIndex(blockBufferHead);
      assert current == Slot(blockBufferTail, |queue| - 1);
      var last := blockBuffer[current];
      SetEntrySpeed(current, Min(last.maxEntrySpeedSqr, SpeedGain(last)), |queue| - 1);
      assert queue == WithEntry(old(queue), |queue| - 1, Slowed(old(queue), |queue| - 1));
      assert ReverseFrom(old(queue), |queue| - 1, planned) == ReverseFrom(queue, |queue| - 2, planned);
      var blockIndex := PrevIndex(current);
      if blockIndex == blockBufferPlanned {
        if blockIndex == blockBufferTail {
          StUpdatePlanBlockParameters();
        }
      } else {
        ReverseLoop(blockIndex, current);
      }
    }

    method ReverseLoop(start: nat, last: nat)
      requires RingOk() && planned + 2 < |queue|
      requires start == Slot(blockBufferTail, |queue| - 2) && last == Slot(blockBufferTail, |queue| - 1)
      modifies this`executing, this`partialBlock, this`queue, blockBuffer
      ensures RingOk() && |queue| == |old(queue)| && SpeedSqr() == old(SpeedSqr())
      ensures executing == (old(executing) && planned > 0) && partialBlock == (old(partialBlock) || (old(executing) && !executing))
      ensures queue == if planned == 0 then WithEntry(ReverseFrom(old(queue), |queue| - 2, 0), 0, old(SpeedSqr()))
                       else ReverseFrom(old(queue), |queue| - 2, planned)
    {
      hide WithEntry, Slowed;
      ghost var k: nat := |queue| - 2;
      var blockIndex, current := start, last;
      while blockIndex != blockBufferPlanned
        invariant RingOk() && planned <= k <= |queue| - 2 && |queue| == |old(queue)| && SpeedSqr() == old(SpeedSqr())
        invariant blockIndex == Slot(blockBufferTail, k) && current == Slot(blockBufferTail, k + 1)
        invariant executing == (old(executing) && k > 0) && partialBlock == (old(partialBlock) || (old(executing) && !executing))
        invariant if k == 0 then queue == WithEntry(ReverseFrom(old(queue), |queue| - 2, 0), 0, old(SpeedSqr()))
                  else ReverseFrom(queue, k, planned) == ReverseFrom(old(queue), |queue| - 2, planned)
        decreases k
      {
        var next := current;
        current := blockIndex;
        blockIndex := PrevIndex(blockIndex);
        ReverseStep(blockIndex, current, next, k);
        k := k - 1;
      }
    }

    method ReverseStep(blockIndex: nat, current: nat, next: nat, ghost k: nat)
      requires RingOk() && 1 <= k < |queue| - 1
      requires current == Slot(blockBufferTail, k) && next == Slot(blockBufferTail, k + 1)
      requires blockIndex == Slot(blockBufferTail, k - 1)
      modifies this`executing, this`partialBlock, this`queue, blockBuffer
      ensures RingOk() && SpeedSqr() == old(SpeedSqr()) && executing == (old(executing) && k > 1)
      ensures partialBlock == (old(partialBlock) || (old(executing) && !executing))
      ensures var r := WithEntry(old(queue), k, Slowed(old(queue), k));
        queue == if k == 1 then WithEntry(r, 0, SpeedSqr()) else r
    {
      if blockIndex == blockBufferTail {
        StUpdatePlanBlockParameters();
      }
      var c := blockBuffer[current];
      if c.entrySpeedSqr != c.maxEntrySpeedSqr {
        var entrySpeedSqr := blockBuffer[next].entrySpeedSqr + SpeedGain(c);
        if entrySpeedSqr < c.maxEntrySpeedSqr {
          SetEntrySpeed(current, entrySpeedSqr, k);
        } else {
          SetEntrySpeed(current, c.maxEntrySpeedSqr, k);
        }
      }
    }

    /** The forward pass, from `blockBufferPlanned` to the newest block, moving the pointer to the
        last optimal breakpoint it meets. */
    method ForwardPass()
      requires RingOk() && planned < |queue|
      modifies this`blockBufferPlanned, this`planned, this`queue, blockBuffer
      ensures RingOk() && planned < |queue| && SpeedSqr() == old(SpeedSqr())
      ensures Replan(queue, planned) == ForwardFrom(old(queue), old(planned), old(planned) + 1)
    {
      var next := blockBufferPlanned;
      var blockIndex := NextIndex(blockBufferPlanned);
      ghost var j := planned + 1;
      while blockIndex != blockBufferHead
        invariant RingOk() && planned < j <= |queue| == |old(queue)| && SpeedSqr() == old(SpeedSqr())
        invariant blockIndex == Slot(blockBufferTail, j) && next == Slot(blockBufferTail, j - 1)
        invariant ForwardFrom(queue, planned, j) == ForwardFrom(old(queue), old(planned), old(planned) + 1)
        decreases |queue| - j
      {
        var current := next;
        next := blockIndex;
        ForwardStep(current, next, j);
        blockIndex := NextIndex(blockIndex);
        j := j + 1;
      }
    }

    method ForwardStep(current: nat, next: nat, ghost j: nat)
      requires RingOk() && planned < j < |queue|
      requires current == Slot(blockBufferTail, j - 1) && next == Slot(blockBufferTail, j)
      modifies this`blockBufferPlanned, this`planned, this`queue, blockBuffer
      ensures RingOk() && SpeedSqr() == old(SpeedSqr()) && queue == WithEntry(old(queue), j, Reached(old(queue), j))
      ensures var speedSqr := Reached(old(queue), j); var b := old(queue)[j];
        planned == if speedSqr < b.entrySpeedSqr || speedSqr == b.maxEntrySpeedSqr then j else old(planned)
    {
      var c := blockBuffer[current];
      if c.entrySpeedSqr < blockBuffer[next].entrySpeedSqr {
        var entrySpeedSqr := c.entrySpeedSqr + SpeedGain(c);
        if entrySpeedSqr < blockBuffer[next].entrySpeedSqr {
          SetEntrySpeed(next, entrySpeedSqr, j);
          blockBufferPlanned, planned := next, j;
        }
      }
      if blockBuffer[next].entrySpeedSqr == blockBuffer[next].maxEntrySpeedSqr {
        blockBufferPlanned, planned := next, j;
      }
    }

    /** Both passes over the ring from `blockBufferPlanned` on, skipping blocks already at their maximum. */
    method PlannerRecalculate()
      requires RingOk() && planned < |queue|
      modifies this`blockBufferPlanned, this`planned, this`executing, this`partialBlock, this`queue, blockBuffer
      ensures RingOk() && SpeedSqr() == old(SpeedSqr())
      ensures Replan(queue, planned) == Recalculate(old(queue), old(SpeedSqr()), old(planned))
      ensures executing == (old(executing) && (old(planned) > 0 || |queue| == 1))
      ensures partialBlock == (old(partialBlock) || (old(executing) && !executing))
    {
      var blockIndex := PrevIndex(blockBufferHead);
      assert blockIndex == Slot(blockBufferTail, |queue| - 1);
      if blockIndex != blockBufferPlanned {
        ReversePass();
        ForwardPass();
      }
    }

    method PlanCheckFullBuffer() returns (full: bool)
      requires RingOk()
      ensures full <==> |queue| == BLOCK_BUFFER_SIZE - 1
    {
      full := blockBufferTail == nextBufferHead;
    }

    /** Queues a block with the given speed data and brings the plan up to date. */
    method AppendBlock(acceleration: real, millimeters: real, nominalSpeedSqr: real, junctionSpeedSqr: real)
      requires Valid() && Optimal() && |queue| < BLOCK_BUFFER_SIZE - 1
      requires acceleration > 0.0 && millimeters > 0.0 && nominalSpeedSqr > 0.0 && junctionSpeedSqr >= 0.0
      modifies this, blockBuffer
      ensures Valid() && Optimal()
      ensures |queue| == |old(queue)| + 1 && SameBlocks(queue[..|old(queue)|], old(queue))
      ensures var b := queue[|old(queue)|];
        && b.acceleration == acceleration && b.millimeters == millimeters && b.nominalSpeedSqr == nominalSpeedSqr
        && b.maxEntrySpeedSqr == if old(queue) == [] then 0.0
                                 else Min(junctionSpeedSqr, Min(nominalSpeedSqr, old(queue)[|old(queue)| - 1].nominalSpeedSqr))
      ensures SpeedSqr() == if old(queue) == [] then 0.0 else old(SpeedSqr())
      ensures forall i :: 1 <= i <= old(planned) && i < |old(queue)| ==> queue[i] == old(queue)[i]
      ensures executing == (old(executing) && old(planned) > 0) && partialBlock == (old(partialBlock) || (old(executing) && !executing))
      ensures currentSpeed == old(currentSpeed) && exitSpeed == old(exitSpeed)
    {
      var block := PlanBlock(blockBuffer[blockBufferHead].entrySpeedSqr, 0.0, junctionSpeedSqr, nominalSpeedSqr, acceleration, millimeters);
      if blockBufferHead == blockBufferTail {
        block := block.(entrySpeedSqr := 0.0, maxJunctionSpeedSqr := 0.0);
      }
      block := block.(maxEntrySpeedSqr := Min(block.maxJunctionSpeedSqr, Min(block.nominalSpeedSqr, previousNominalSpeedSqr)));
      EnqueueBlock(block);
    }

    method EnqueueBlock(block: PlanBlock)
      requires Valid() && Optimal() && |queue| < BLOCK_BUFFER_SIZE - 1 && BlockOk(block)
      requires if queue == [] then block.entrySpeedSqr == 0.0 else block.maxEntrySpeedSqr <= queue[|queue| - 1].nominalSpeedSqr
      modifies this, blockBuffer
      ensures Valid() && Optimal()
      ensures SpeedSqr() == if old(queue) == [] then 0.0 else old(SpeedSqr())
      ensures Replan(queue, planned) == Recalculate(old(queue) + [block], SpeedSqr(), old(planned))
      ensures executing == (old(executing) && old(planned) > 0) && partialBlock == (old(partialBlock) || (old(executing) && !executing))
      ensures currentSpeed == old(currentSpeed) && exitSpeed == old(exitSpeed)
      ensures |queue| == |old(queue)| + 1 && SameBlocks(queue[..|old(queue)|], old(queue))
      ensures queue[|old(queue)|] == block.(entrySpeedSqr := queue[|old(queue)|].entrySpeedSqr)
      ensures forall i :: 1 <= i <= old(planned) && i < |old(queue)| ==> queue[i] == old(queue)[i]
    {
      hide BlocksOk, Replannable, Replanned, AtPlan, CanStop, Breakpoint, LimitsOf, Recalculate;
      ghost var q, v, p := queue, if queue == [] then 0.0 else SpeedSqr(), planned;
      AppendReady(q, v, p, block);
      RecalculateReplans(q + [block], v, p);
      PushBlock(block);
      Appended(q, block, queue, v, p, planned);
    }

    /** The block goes into the free slot at the head, and the plan is recalculated. */
    method PushBlock(block: PlanBlock)
      requires RingOk() && |queue| < BLOCK_BUFFER_SIZE - 1 && (queue == [] ==> !executing && block.entrySpeedSqr == 0.0)
      modifies this`previousNominalSpeedSqr, this`blockBufferHead, this`nextBufferHead, this`queue, blockBuffer
      modifies this`blockBufferPlanned, this`planned, this`executing, this`partialBlock
      ensures RingOk() && SpeedSqr() == (if old(queue) == [] then 0.0 else old(SpeedSqr()))
      ensures Replan(queue, planned) == Recalculate(old(queue) + [block], SpeedSqr(), old(planned))
      ensures executing == (old(executing) && old(planned) > 0) && partialBlock == (old(partialBlock) || (old(executing) && !executing))
      ensures previousNominalSpeedSqr == block.nominalSpeedSqr
    {
      blockBuffer[blockBufferHead] := block;
      previousNominalSpeedSqr := block.nominalSpeedSqr;
      blockBufferHead := nextBufferHead;
      nextBufferHead := NextIndex(blockBufferHead);
      queue := queue + [block];
      PlannerRecalculate();
    }

    method PlanDiscardCurrentBlock()
      requires RingOk() && !executing && (queue != [] ==> planned < |queue|) && (queue == [] ==> planned == 0)
      modifies this`blockBufferTail, this`blockBufferPlanned, this`queue, this`planned
      ensures RingOk() && queue == if old(queue) == [] then [] else old(queue)[1..]
      ensures planned == if old(planned) == 0 then 0 else old(planned) - 1
    {
      if blockBufferHead != blockBufferTail {
        var blockIndex := NextIndex(blockBufferTail);
        if blockBufferTail == blockBufferPlanned {
          blockBufferPlanned, planned := blockIndex, 1;
        }
        blockBufferTail := blockIndex;
        queue, planned := queue[1..], planned - 1;
      }
    }

    /** The last segment of the tail block has been prepared: drop the block. */
    method FinishBlock()
      requires Valid() && |queue| > 0 && executing
      modifies this`executing, this`blockBufferTail, this`blockBufferPlanned, this`queue, this`planned
      ensures Valid() && !executing && queue == old(queue)[1..] && planned == (if old(planned) == 0 then 0 else old(planned) - 1)
      ensures old(Optimal()) ==> Optimal()
      ensures old(Slowing()) ==> Slowing()
    {
      hide StoppablePlan, BlocksOk, AtPlan, Breakpoint, CanStop, LimitsOf, ExitOf, SpeedGain;
      DiscardKeeps(queue, SpeedSqr(), planned);
      if |queue| > 1 && Slowing() {
        NextBrakes(queue, Square(exitSpeed));
      }
      executing := false;
      PlanDiscardCurrentBlock();
    }

    method PlanGetExecBlockExitSpeedSqr() returns (exitSpeedSqr: real)
      requires RingOk() && |queue| > 0
      ensures exitSpeedSqr == if |queue| == 1 then 0.0 else queue[1].entrySpeedSqr
    {
      var blockIndex := NextIndex(blockBufferTail);
      assert blockIndex == Slot(blockBufferTail, 1);
      if blockIndex == blockBufferHead {
        return 0.0;
      }
      return blockBuffer[blockIndex].entrySpeedSqr;
    }

    /** The stepper takes up the tail block, new or replanned. `speed` and `exit` are the nonnegative
        roots of its entry and exit speed squared. */
    method LoadBlock(speed: real, exit: real)
      requires Valid() && Optimal() && |queue| > 0 && !executing
      requires speed >= 0.0 && Square(speed) == queue[0].entrySpeedSqr
      requires exit >= 0.0 && Square(exit) == if |queue| == 1 then 0.0 else queue[1].entrySpeedSqr
      modifies this`executing, this`partialBlock, this`currentSpeed, this`exitSpeed
      ensures Valid() && Optimal() && executing && currentSpeed == speed && exitSpeed == exit
      ensures Reachable(Square(speed), Square(exit), queue[0].nominalSpeedSqr, queue[0].acceleration, queue[0].millimeters)
    {
      OptimalPlanReachable(queue, SpeedSqr(), planned);
      assert |queue| > 1 ==> AtPlan(queue, LimitsOf(queue), SpeedSqr(), 1);
      executing, partialBlock, currentSpeed, exitSpeed := true, false, speed, exit;
    }

    /** A segment of the tail block has been prepared, up to `speed` with `millimeters` to go. */
    method Progress(speed: real, millimeters: real)
      requires Valid() && Optimal() && |queue| > 0 && executing
      requires millimeters > 0.0 && speed >= 0.0 && Square(speed) <= queue[0].nominalSpeedSqr
      requires ProgressOk(Square(currentSpeed), SpeedGain(queue[0]), Square(speed), Gain(queue[0].acceleration, millimeters), Square(exitSpeed))
      modifies this`currentSpeed, this`queue, blockBuffer
      ensures Valid() && Optimal() && executing && currentSpeed == speed
      ensures queue == old(queue)[0 := old(queue)[0].(millimeters := millimeters)]
    {
      OptimalPlanProgress(queue, SpeedSqr(), planned, Square(speed), millimeters);
      SetTail(blockBuffer[blockBufferTail].(millimeters := millimeters));
      currentSpeed := speed;
    }

    method SetTail(b: PlanBlock)
      requires Valid() && |queue| > 0 && BlockOk(b) && b.nominalSpeedSqr == queue[0].nominalSpeedSqr && !partialBlock
      modifies this`queue, blockBuffer
      ensures Valid() && queue == old(queue)[0 := b]
      ensures StoppablePlan(old(queue)) ==> StoppablePlan(queue)
    {
      if StoppablePlan(queue) {
        StoppableTail(queue, b);
      }
      BlocksTail(queue, b);
      blockBuffer[blockBufferTail] := b;
      queue := queue[0 := b];
    }

    /** A feed hold begins: the block being prepared is to be taken up again with a hold profile. */
    method EnterHold()
      requires Valid() && Optimal()
      modifies this`executing, this`partialBlock, this`queue, blockBuffer
      ensures Valid() && Slowing() && Optimal() && !executing && partialBlock == (old(partialBlock) || old(executing))
      ensures queue == if old(executing) then WithEntry(old(queue), 0, Square(currentSpeed)) else old(queue)
    {
      OptimalIsStoppable(queue, SpeedSqr(), planned);
      if executing {
        ghost var b := queue[0].(entrySpeedSqr := SpeedSqr());
        assert BlockOk(queue[0]);
        BlocksTail(queue, b);
        StoppableTail(queue, b);
        OptimalIgnoresEntry(queue, SpeedSqr(), planned, SpeedSqr());
        StUpdatePlanBlockParameters();
      }
    }

    /** Feed hold: a new tail block is entered at the exit speed the deceleration has reached, one
        already being cut at its present speed; the hold profile gives a new exit speed. */
    method HoldLoadBlock(exit: real)
      requires Valid() && Slowing() && |queue| > 0 && !executing
      requires exit >= 0.0 && (Square(exit) == 0.0 || Square(exit) == HeldSpeedSqr() - SpeedGain(queue[0]))
      modifies this`executing, this`partialBlock, this`currentSpeed, this`exitSpeed, this`queue, blockBuffer
      ensures Valid() && Slowing() && executing && exitSpeed == exit && Square(currentSpeed) == old(HeldSpeedSqr())
      ensures currentSpeed == if old(partialBlock) then old(currentSpeed) else old(exitSpeed)
      ensures queue == if old(partialBlock) then old(queue) else WithEntry(old(queue), 0, Square(old(exitSpeed)))
    {
      hide StoppablePlan, BlocksOk, SpeedGain;
      StoredExitOk(queue);
      TailOk(queue);
      if partialBlock {
        partialBlock := false;
      } else {
        currentSpeed := exitSpeed;
        SetTail(blockBuffer[blockBufferTail].(entrySpeedSqr := Square(exitSpeed)));
      }
      executing, exitSpeed := true, exit;
    }

    /** Feed hold: any speed and any distance left, including a distance rounded up to whole steps. */
    method HoldProgress(speed: real, millimeters: real)
      requires Valid() && Slowing() && |queue| > 0 && executing && millimeters > 0.0 && speed >= 0.0
      modifies this`currentSpeed, this`queue, blockBuffer
      ensures Valid() && Slowing() && executing && currentSpeed == speed
      ensures queue == old(queue)[0 := old(queue)[0].(millimeters := millimeters)]
    {
      hide StoppablePlan, BlocksOk, SpeedGain;
      TailOk(queue);
      SetTail(blockBuffer[blockBufferTail].(millimeters := millimeters));
      currentSpeed := speed;
    }

    /** The hold has stopped the machine inside the tail block: replan everything from standstill. */
    method PlanCycleReinitialize()
      requires Valid() && StoppablePlan(queue) && |queue| > 0 && executing && currentSpeed == 0.0
      modifies this`blockBufferPlanned, this`planned, this`executing, this`partialBlock, this`queue, blockBuffer
      ensures Valid() && Optimal() && !executing && partialBlock && SpeedSqr() == 0.0
      ensures SameBlocks(queue, old(queue))
      ensures Replan(queue, planned) == Recalculate(WithEntry(old(queue), 0, 0.0), 0.0, 0)
    {
      hide StoppablePlan, OptimalPlan, BlocksOk, Replanned, Replannable, Recalculate, SameBlocks, CanStop, LimitsOf, BlockOk;
      StUpdatePlanBlockParameters();
      StoppedTail(old(queue));
      ReplanFromStandstill(queue);
      blockBufferPlanned, planned := blockBufferTail, 0;
      ghost var q := queue;
      RecalculateReplans(q, 0.0, 0);
      PlannerRecalculate();
      ReplannedOptimal(q, queue, 0.0, planned);
      FromStandstill(old(queue), queue);
    }
  }

  lemma FromStandstill(q: seq<PlanBlock>, r: seq<PlanBlock>)
    requires |q| > 0 && SameBlocks(r, WithEntry(q, 0, 0.0)) && BlocksOk(r)
    ensures SameBlocks(r, q) && r[|r| - 1].nominalSpeedSqr == q[|q| - 1].nominalSpeedSqr
  {
  }
}
