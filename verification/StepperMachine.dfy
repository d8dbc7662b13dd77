/** Main program and step interrupt as one machine: the planner queue, segment preparation and the
    interrupt share a ring of at most five segments and a ring of five Bresenham data blocks. Every
    interleaving of their steps is a run of this machine. */
module StepperMachine {
  import opened Bresenham
  import opened CoreXY

  const SEGMENT_BUFFER_SIZE: nat := 6
  const ST_BLOCKS: nat := 5 // SEGMENT_BUFFER_SIZE - 1

  type Counts = s: seq<nat> | |s| == 3 witness [0, 0, 0]
  type Flags = s: seq<bool> | |s| == 3 witness [false, false, false]

  /** A planned block as the step generator sees it. */
  datatype Job = Job(steps: Counts, negative: Flags, stepEventCount: nat)

  ghost predicate JobOk(j: Job) {
    0 < j.stepEventCount && forall a :: 0 <= a < 3 ==> j.steps[a] <= j.stepEventCount
  }

  /** The signed motor steps of a job. */
  function Signed(j: Job, a: nat): int
    requires a < 3
  {
    if j.negative[a] then -(j.steps[a] as int) else j.steps[a] as int
  }

  /** Step counts and directions for a move from one axis position to another; count 0 means no move. */
  function Plan(inv: Invert, from: Triple, target: Triple): Job {
    var d := ToMotors(inv, [target[0] - from[0], target[1] - from[1], target[2] - from[2]]);
    var steps := [Abs(d[0]), Abs(d[1]), Abs(d[2])];
    Job(steps, [d[0] < 0, d[1] < 0, d[2] < 0], Max(Max(steps[0], steps[1]), steps[2]))
  }

  function Max(x: nat, y: nat): nat {
    if x < y then y else x
  }

  /** A planned move takes the motors exactly from one position to the other, in as many step events as the busiest
      motor has steps, and has none only if the positions are the same. */
  lemma PlanExact(inv: Invert, from: Triple, target: Triple, a: nat)
    requires a < 3
    ensures Plan(inv, from, target).stepEventCount > 0 ==> JobOk(Plan(inv, from, target))
    ensures Signed(Plan(inv, from, target), a) == ToMotors(inv, target)[a] - ToMotors(inv, from)[a]
    ensures Plan(inv, from, target).stepEventCount == 0 <==> target == from
    ensures Plan(inv, from, target).stepEventCount in Plan(inv, from, target).steps
  {
    var e: Triple := [target[0] - from[0], target[1] - from[1], target[2] - from[2]];
    var j, d := Plan(inv, from, target), ToMotors(inv, e);
    MotorsApart(inv, from, target);
    assert Signed(j, a) == d[a];
    assert j.stepEventCount == j.steps[0] || j.stepEventCount == j.steps[1] || j.stepEventCount == j.steps[2];
    if j.stepEventCount == 0 {
      MotorsStill(inv, e);
    }
  }

  lemma MotorsApart(inv: Invert, from: Triple, target: Triple)
    ensures var d := ToMotors(inv, [target[0] - from[0], target[1] - from[1], target[2] - from[2]]);
      forall a :: 0 <= a < 3 ==> d[a] == ToMotors(inv, target)[a] - ToMotors(inv, from)[a]
  {
  }

  lemma MotorsStill(inv: Invert, e: Triple)
    requires ToMotors(inv, e) == [0, 0, 0]
    ensures e == [0, 0, 0]
  {
    var d := ToMotors(inv, e);
    assert d[0] + d[1] == 2 * (Sign(inv.x) * e[0]) && d[0] - d[1] == 2 * (Sign(inv.y) * e[1]);
  }

  /** Bresenham data of a block, scaled for smoothing. */
  datatype StBlock = StBlock(steps: Counts, negative: Flags, stepEventCount: nat)

  function Scaled(j: Job): StBlock
  {
    StBlock([8 * j.steps[0], 8 * j.steps[1], 8 * j.steps[2]], j.negative, 8 * j.stepEventCount)
  }

  /** A queued segment: n whole steps at a smoothing level, and the data slot it names. `job` records
      which block it was cut from; the machine itself never reads it. */
  datatype Seg = Seg(n: nat, level: nat, stBlockIndex: nat, job: nat)

  function Ticks(s: Seg): nat
    requires s.level <= 3
  {
    s.n * Pow2(s.level)
  }

  datatype Machine = Machine(
    // Planner: position in axis steps, all blocks planned since the last synchronisation, and how many
    // of them the preparation has taken up; the last one taken up is being cut while `cutting`.
    inv: Invert, plannerPosition: Triple, jobs: seq<Job>, loaded: nat, cutting: bool, stepsLeft: nat,
    // Shared buffers
    prepIndex: nat, stBlocks: seq<StBlock>, queue: seq<Seg>,
    // Interrupt
    executing: bool, execIndex: nat, counters: Triple, increments: Counts, stepCount: nat, position: Triple,
    // Records for the proofs: motor position at the last synchronisation, the block the counters are
    // for, and the pulses it has had
    start: Triple, execJob: int, pulses: Counts)

  function SlotOf(job: int): (slot: nat)
    requires job >= -1
    ensures slot < ST_BLOCKS
  {
    (job + 1) % ST_BLOCKS
  }

  // ---- The steps of the machine ----

  function Initial(inv: Invert, position: Triple): Machine {
    Machine(inv, SyncPosition(inv, position), [], 0, false, 0,
            0, seq(ST_BLOCKS, _ => StBlock([0, 0, 0], [false, false, false], 0)), [],
            false, 0, [0, 0, 0], [0, 0, 0], 0, position,
            position, -1, [0, 0, 0])
  }

  /** A line to `target` is planned; a zero-length line is dropped. */
  function PlanLine(m: Machine, target: Triple): Machine {
    var j := Plan(m.inv, m.plannerPosition, target);
    if j.stepEventCount == 0 then m else m.(jobs := m.jobs + [j], plannerPosition := target)
  }

  /** The preparation takes up the next planned block and stores its data. */
  ghost predicate CanTakeUp(m: Machine) {
    !m.cutting && m.loaded < |m.jobs| && |m.queue| < SEGMENT_BUFFER_SIZE - 1
  }

  function TakeUp(m: Machine): Machine
    requires !m.cutting && m.loaded < |m.jobs| && |m.stBlocks| == ST_BLOCKS && m.prepIndex < ST_BLOCKS
  {
    var i := if m.prepIndex + 1 == ST_BLOCKS then 0 else m.prepIndex + 1;
    m.(prepIndex := i, stBlocks := m.stBlocks[i := Scaled(m.jobs[m.loaded])], loaded := m.loaded + 1,
       cutting := true, stepsLeft := m.jobs[m.loaded].stepEventCount)
  }

  /** A segment of n of the block's remaining steps is committed to the ring. */
  ghost predicate CanCut(m: Machine, n: nat, level: nat) {
    m.cutting && 1 <= n <= m.stepsLeft && level <= 3 && |m.queue| < SEGMENT_BUFFER_SIZE - 1
  }

  function Cut(m: Machine, n: nat, level: nat): Machine
    requires m.cutting && n <= m.stepsLeft && m.loaded > 0
  {
    m.(queue := m.queue + [Seg(n, level, m.prepIndex, m.loaded - 1)], stepsLeft := m.stepsLeft - n, cutting := n < m.stepsLeft)
  }

  /** The interrupt finds no segment executing and takes the oldest from the ring. */
  function Pop(m: Machine): Machine
    requires m.queue != [] && m.queue[0].level <= 3 && m.queue[0].stBlockIndex < |m.stBlocks|
  {
    var s := m.queue[0];
    var newBlock := m.execIndex != s.stBlockIndex;
    var b := m.stBlocks[s.stBlockIndex];
    var half := b.stepEventCount / 2;
    m.(executing := true, stepCount := Ticks(s), execIndex := s.stBlockIndex,
       increments := [b.steps[0] / Pow2(s.level), b.steps[1] / Pow2(s.level), b.steps[2] / Pow2(s.level)],
       counters := if newBlock then [half, half, half] else m.counters,
       execJob := if newBlock then s.job else m.execJob,
       pulses := if newBlock then [0, 0, 0] else m.pulses)
  }

  /** Whether motor a is pulsed by this tick, as a signed step. */
  function MoveOf(m: Machine, a: nat): int
    requires a < 3 && m.execIndex < |m.stBlocks|
  {
    var b := m.stBlocks[m.execIndex];
    var p := TickPulse(m.counters[a], m.increments[a], b.stepEventCount);
    if b.negative[a] then -(p as int) else p as int
  }

  /** One tick of the executing segment. */
  function Step(m: Machine): Machine
    requires m.queue != [] && m.execIndex < |m.stBlocks| && m.stepCount > 0
  {
    var events, c, i, p := m.stBlocks[m.execIndex].stepEventCount, m.counters, m.increments, m.pulses;
    m.(counters := [TickCounter(c[0], i[0], events), TickCounter(c[1], i[1], events), TickCounter(c[2], i[2], events)],
       pulses := [p[0] + TickPulse(c[0], i[0], events), p[1] + TickPulse(c[1], i[1], events), p[2] + TickPulse(c[2], i[2], events)],
       position := [m.position[0] + MoveOf(m, 0), m.position[1] + MoveOf(m, 1), m.position[2] + MoveOf(m, 2)],
       stepCount := m.stepCount - 1,
       executing := m.stepCount > 1,
       queue := if m.stepCount == 1 then m.queue[1..] else m.queue)
  }

  // ---- What every step keeps ----

  ghost function SumSigned(jobs: seq<Job>, k: nat, a: nat): int
    requires k <= |jobs| && a < 3
  {
    if k == 0 then 0 else SumSigned(jobs, k - 1, a) + Signed(jobs[k - 1], a)
  }

  /** Whole steps of block j among queued segments. */
  ghost function StepsOf(q: seq<Seg>, j: int): nat {
    if q == [] then 0 else StepsOf(q[..|q| - 1], j) + if q[|q| - 1].job == j then q[|q| - 1].n else 0
  }

  lemma {:induction false} StepsOfFront(q: seq<Seg>, j: int)
    requires q != []
    ensures StepsOf(q, j) == StepsOf(q[1..], j) + if q[0].job == j then q[0].n else 0
  {
    if |q| > 1 {
      StepsOfFront(q[..|q| - 1], j);
      assert q[..|q| - 1][1..] == q[1..][..|q| - 2];
    }
  }

  ghost predicate Shape(m: Machine) {
    && |m.stBlocks| == ST_BLOCKS
    && (forall j :: j in m.jobs ==> JobOk(j))
    && m.loaded <= |m.jobs| && |m.queue| < SEGMENT_BUFFER_SIZE
    && (if m.cutting then m.loaded > 0 && 0 < m.stepsLeft <= m.jobs[m.loaded - 1].stepEventCount else m.stepsLeft == 0)
  }

  /** The block being cut has no segment yet. */
  ghost predicate Untouched(m: Machine)
    requires Shape(m)
  {
    m.cutting && m.stepsLeft == m.jobs[m.loaded - 1].stepEventCount
  }

  ghost predicate SegOk(m: Machine, s: Seg) {
    1 <= s.n && s.level <= 3 && s.job < m.loaded && s.stBlockIndex == SlotOf(s.job)
  }

  /** Consecutive segments are of the same block or of consecutive blocks. */
  ghost predicate Follows(q: seq<Seg>, i: nat)
    requires i + 1 < |q|
  {
    q[i].job <= q[i + 1].job <= q[i].job + 1
  }

  ghost predicate DataKept(m: Machine, j: nat)
    requires j < |m.jobs| && |m.stBlocks| == ST_BLOCKS
  {
    m.stBlocks[SlotOf(j)] == Scaled(m.jobs[j])
  }

  /** The rings: segments are in block order, name the slot of their block, and the last five blocks
      taken up still have their data in place. */
  ghost predicate Ordered(m: Machine)
    requires Shape(m)
  {
    && (forall i :: 0 <= i < |m.queue| ==> SegOk(m, m.queue[i]))
    && (forall i :: 0 <= i < |m.queue| - 1 ==> Follows(m.queue, i))
    && -1 <= m.execJob < m.loaded && m.prepIndex == SlotOf(m.loaded - 1) && m.execIndex == SlotOf(m.execJob)
    && (m.queue != [] ==> m.execJob <= m.queue[0].job <= m.execJob + 1)
    && (if m.queue == [] then m.execJob else m.queue[|m.queue| - 1].job) == (if Untouched(m) then m.loaded - 2 else m.loaded - 1)
    && (Untouched(m) ==> |m.queue| < SEGMENT_BUFFER_SIZE - 1)
    && (forall j :: m.loaded - ST_BLOCKS <= j < m.loaded && j >= 0 ==> DataKept(m, j))
    && (m.executing ==> m.queue != [] && m.queue[0].job == m.execJob && 0 < m.stepCount <= Ticks(m.queue[0]))
  }

  lemma {:induction false} QueueSpread(q: seq<Seg>, k: nat)
    requires k < |q| && forall i :: 0 <= i < |q| - 1 ==> Follows(q, i)
    ensures q[0].job <= q[k].job <= q[0].job + k
  {
    if k > 0 {
      QueueSpread(q, k - 1);
      assert Follows(q, k - 1);
    }
  }

  /** Data integrity: every queued or executing segment's slot holds the data of the block it was cut
      from, though the data ring has one slot fewer than the segment ring. */
  lemma SegmentDataIntact(m: Machine, i: nat)
    requires Shape(m) && Ordered(m) && i < |m.queue|
    ensures m.queue[i].job < |m.jobs| && m.stBlocks[m.queue[i].stBlockIndex] == Scaled(m.jobs[m.queue[i].job])
  {
    assert SegOk(m, m.queue[i]);
    QueueSpread(m.queue, i);
    QueueSpread(m.queue, |m.queue| - 1);
    assert DataKept(m, m.queue[i].job);
  }

  /** The interrupt starts its counters afresh exactly at the first segment of a block. */
  lemma FreshExactlyOncePerBlock(m: Machine)
    requires Shape(m) && Ordered(m) && m.queue != []
    ensures m.execIndex != m.queue[0].stBlockIndex <==> m.queue[0].job == m.execJob + 1
  {
    assert SegOk(m, m.queue[0]);
  }

  /** What is left of the executing block, in eighths of a whole step: ticks of the executing segment,
      later segments, and steps not yet cut. */
  ghost function UnitsLeft(m: Machine): nat
    requires m.executing ==> m.queue != [] && m.queue[0].level <= 3
  {
    (if m.executing then 8 * StepsOf(m.queue[1..], m.execJob) + m.stepCount * Pow2(3 - m.queue[0].level) else 8 * StepsOf(m.queue, m.execJob))
    + if m.cutting && m.loaded - 1 == m.execJob then 8 * m.stepsLeft else 0
  }

  /** A block taken up but not yet executing is covered by its segments and the steps still to cut. */
  ghost predicate Covered(m: Machine, j: nat)
    requires j < |m.jobs|
  {
    StepsOf(m.queue, j) + (if m.cutting && j == m.loaded - 1 then m.stepsLeft else 0) == m.jobs[j].stepEventCount
  }

  /** Counter and pulses of axis a account for what the executing block has run. */
  ghost predicate AxisOk(m: Machine, units: nat, a: nat)
    requires a < 3 && 0 <= m.execJob < |m.jobs|
  {
    var j := m.jobs[m.execJob];
    Balanced(Axis(m.counters[a], m.pulses[a]), 8 * j.stepEventCount, 4 * j.stepEventCount, (8 * j.stepEventCount - units) * j.steps[a])
  }

  ghost predicate Accounted(m: Machine)
    requires Shape(m) && Ordered(m)
  {
    && (m.queue != [] ==> SegOk(m, m.queue[0]))
    && (forall j :: m.execJob < j < m.loaded ==> Covered(m, j))
    && (m.execJob >= 0 ==> UnitsLeft(m) <= 8 * m.jobs[m.execJob].stepEventCount)
    && (m.execJob >= 0 ==> AxisOk(m, UnitsLeft(m), 0) && AxisOk(m, UnitsLeft(m), 1) && AxisOk(m, UnitsLeft(m), 2))
    && (m.executing ==> forall a :: 0 <= a < 3 ==> m.increments[a] == Increment(m.jobs[m.execJob].steps[a], m.queue[0].level))
  }

  ghost function PulsesMoved(m: Machine, a: nat): int
    requires a < 3 && 0 <= m.execJob < |m.jobs|
  {
    if m.jobs[m.execJob].negative[a] then -(m.pulses[a] as int) else m.pulses[a] as int
  }

  /** Motor positions, counted from the last synchronisation: executed so far, and planned. */
  ghost predicate Located(m: Machine, a: nat)
    requires a < 3 && -1 <= m.execJob < |m.jobs|
  {
    && m.position[a] == m.start[a] + (if m.execJob < 0 then 0 else SumSigned(m.jobs, m.execJob, a) + PulsesMoved(m, a))
    && PlannedMove(m, a) == SumSigned(m.jobs, |m.jobs|, a)
  }

  /** How far the planner has moved motor a from the position it was synchronised to. */
  ghost function PlannedMove(m: Machine, a: nat): int
    requires a < 3
  {
    ToMotors(m.inv, m.plannerPosition)[a] - ToMotors(m.inv, SyncPosition(m.inv, m.start))[a]
  }

  ghost predicate Inv(m: Machine) {
    Shape(m) && Ordered(m) && Accounted(m) && Located(m, 0) && Located(m, 1) && Located(m, 2)
  }

  lemma InitialInv(inv: Invert, position: Triple)
    ensures Inv(Initial(inv, position))
  {
  }

  // ---- Planning ----

  lemma {:induction false} SumSignedAppend(jobs: seq<Job>, j: Job, k: nat, a: nat)
    requires k <= |jobs| && a < 3
    ensures SumSigned(jobs + [j], k, a) == SumSigned(jobs, k, a)
  {
    if k > 0 {
      SumSignedAppend(jobs, j, k - 1, a);
    }
  }

  lemma PlanLineInv(m: Machine, target: Triple)
    requires Inv(m)
    ensures Inv(PlanLine(m, target))
  {
    var j, n := Plan(m.inv, m.plannerPosition, target), PlanLine(m, target);
    PlanExact(m.inv, m.plannerPosition, target, 0);
    if j.stepEventCount > 0 {
      assert Shape(n);
      PlanLineOrdered(m, n);
      PlanLineLocated(m, target, 0);
      PlanLineLocated(m, target, 1);
      PlanLineLocated(m, target, 2);
    }
  }

  lemma PlanLineOrdered(m: Machine, n: Machine)
    requires Shape(m) && Ordered(m) && Accounted(m) && Shape(n) && m.jobs <= n.jobs
    requires n == m.(jobs := n.jobs, plannerPosition := n.plannerPosition)
    ensures Ordered(n) && Accounted(n)
  {
    forall i | 0 <= i < |n.queue| ensures SegOk(n, n.queue[i]) {
      assert SegOk(m, m.queue[i]);
    }
    forall j | n.loaded - ST_BLOCKS <= j < n.loaded && j >= 0 ensures DataKept(n, j) {
      assert DataKept(m, j);
    }
    forall j | n.execJob < j < n.loaded ensures Covered(n, j) {
      assert Covered(m, j);
    }
  }

  lemma PlanLineLocated(m: Machine, target: Triple, a: nat)
    requires a < 3 && Shape(m) && Ordered(m) && Located(m, a)
    ensures Located(PlanLine(m, target), a)
  {
    var j := Plan(m.inv, m.plannerPosition, target);
    PlanExact(m.inv, m.plannerPosition, target, a);
    SumSignedAppend(m.jobs, j, |m.jobs|, a);
    if m.execJob >= 0 {
      SumSignedAppend(m.jobs, j, m.execJob, a);
    }
  }

  // ---- Preparation ----

  lemma {:induction false} StepsOfNone(q: seq<Seg>, j: int)
    requires forall s :: s in q ==> s.job != j
    ensures StepsOf(q, j) == 0
  {
    if q != [] {
      StepsOfNone(q[..|q| - 1], j);
    }
  }

  lemma TakeUpInv(m: Machine)
    requires Inv(m) && CanTakeUp(m)
    ensures Inv(TakeUp(m))
  {
    var n := TakeUp(m);
    assert JobOk(m.jobs[m.loaded]);
    assert Shape(n);
    TakeUpOrdered(m, n);
    forall s | s in n.queue ensures s.job != m.loaded {
      assert SegOk(m, s);
    }
    StepsOfNone(n.queue, m.loaded);
    forall j | n.execJob < j < n.loaded ensures Covered(n, j) {
      assert j < m.loaded ==> Covered(m, j);
    }
  }

  lemma TakeUpOrdered(m: Machine, n: Machine)
    requires Shape(m) && Ordered(m) && CanTakeUp(m) && n == TakeUp(m) && Shape(n)
    ensures Ordered(n)
  {
    if m.queue != [] {
      QueueSpread(m.queue, |m.queue| - 1);
    }
    forall i | 0 <= i < |n.queue| ensures SegOk(n, n.queue[i]) {
      assert SegOk(m, m.queue[i]);
    }
    forall i | 0 <= i < |n.queue| - 1 ensures Follows(n.queue, i) {
      assert Follows(m.queue, i);
    }
    TakeUpData(m, n);
  }

  /** The slot given to the new block is not that of any of the four blocks before it. */
  lemma TakeUpData(m: Machine, n: Machine)
    requires Shape(m) && Ordered(m) && CanTakeUp(m) && n == TakeUp(m) && Shape(n)
    ensures n.prepIndex == SlotOf(m.loaded)
    ensures forall j :: n.loaded - ST_BLOCKS <= j < n.loaded && j >= 0 ==> DataKept(n, j)
  {
    SlotNext(m.loaded);
    hide SlotOf, Follows, Untouched, JobOk;
    forall j | n.loaded - ST_BLOCKS <= j < n.loaded && j >= 0 ensures DataKept(n, j) {
      if j < m.loaded {
        assert DataKept(m, j);
        SlotsDiffer(j, m.loaded);
      }
    }
  }

  lemma SlotNext(k: nat)
    ensures SlotOf(k) == (if SlotOf(k - 1) + 1 == ST_BLOCKS then 0 else SlotOf(k - 1) + 1) && SlotOf(k) < ST_BLOCKS
  {
  }

  lemma SlotsDiffer(j: nat, k: nat)
    requires k - ST_BLOCKS < j < k
    ensures SlotOf(j) != SlotOf(k)
  {
  }

  lemma CutInv(m: Machine, n: nat, level: nat)
    requires Inv(m) && CanCut(m, n, level)
    ensures Inv(Cut(m, n, level))
  {
    var r := Cut(m, n, level);
    assert Shape(r);
    CutOrdered(m, n, level);
    var s := Seg(n, level, m.prepIndex, m.loaded - 1);
    assert r.queue[..|m.queue|] == m.queue;
    assert forall j :: StepsOf(r.queue, j) == StepsOf(m.queue, j) + if j == s.job then n else 0;
    forall j | r.execJob < j < r.loaded ensures Covered(r, j) {
      assert Covered(m, j);
    }
    CutUnits(m, n, level);
  }

  lemma CutUnits(m: Machine, n: nat, level: nat)
    requires CanCut(m, n, level) && m.loaded > 0 && (m.executing ==> m.queue != []) && (m.queue != [] ==> m.queue[0].level <= 3)
    ensures UnitsLeft(Cut(m, n, level)) == UnitsLeft(m)
  {
    hide Pow2, StepsOf;
    var s := Seg(n, level, m.prepIndex, m.loaded - 1);
    if m.executing {
      assert (m.queue + [s])[1..] == m.queue[1..] + [s];
      StepsOfPush(m.queue[1..], s, m.execJob);
    } else {
      StepsOfPush(m.queue, s, m.execJob);
    }
  }

  lemma StepsOfPush(queue: seq<Seg>, s: Seg, job: int)
    ensures StepsOf(queue + [s], job) == StepsOf(queue, job) + if s.job == job then s.n else 0
  {
    assert (queue + [s])[..|queue|] == queue;
  }

  lemma CutOrdered(m: Machine, n: nat, level: nat)
    requires Shape(m) && Ordered(m) && CanCut(m, n, level)
    ensures Ordered(Cut(m, n, level))
  {
    var r := Cut(m, n, level);
    forall i | 0 <= i < |r.queue| ensures SegOk(r, r.queue[i]) {
      assert i < |m.queue| ==> SegOk(m, m.queue[i]);
    }
    forall i | 0 <= i < |r.queue| - 1 ensures Follows(r.queue, i) {
      assert i < |m.queue| - 1 ==> Follows(m.queue, i);
    }
    forall j | r.loaded - ST_BLOCKS <= j < r.loaded && j >= 0 ensures DataKept(r, j) {
      assert DataKept(m, j);
    }
  }

  // ---- Interrupt ----

  ghost predicate CanPop(m: Machine) {
    !m.executing && m.queue != []
  }

  lemma PopInv(m: Machine)
    requires Inv(m) && CanPop(m)
    ensures Inv(Pop(m)) && Pop(m).stepCount > 0
  {
    var s := m.queue[0];
    SegmentDataIntact(m, 0);
    StepsOfFront(m.queue, s.job);
    FreshExactlyOncePerBlock(m);
    var n := Pop(m);
    assert Shape(n);
    PopOrdered(m);
    PopAccounted(m);
    PopLocated(m, 0);
    PopLocated(m, 1);
    PopLocated(m, 2);
  }

  lemma PopOrdered(m: Machine)
    requires Inv(m) && CanPop(m)
    ensures Shape(Pop(m)) && Ordered(Pop(m)) && Pop(m).execJob == m.queue[0].job
  {
    var n := Pop(m);
    FreshExactlyOncePerBlock(m);
    assert SegOk(m, m.queue[0]);
    forall i | 0 <= i < |n.queue| ensures SegOk(n, n.queue[i]) {
      assert SegOk(m, m.queue[i]);
    }
    forall i | 0 <= i < |n.queue| - 1 ensures Follows(n.queue, i) {
      assert Follows(m.queue, i);
    }
    forall j | n.loaded - ST_BLOCKS <= j < n.loaded && j >= 0 ensures DataKept(n, j) {
      assert DataKept(m, j);
    }
  }

  lemma PopAccounted(m: Machine)
    requires Inv(m) && CanPop(m) && Shape(Pop(m)) && Ordered(Pop(m))
    ensures Accounted(Pop(m))
  {
    assert SegOk(m, m.queue[0]);
    SegmentDataIntact(m, 0);
    FreshExactlyOncePerBlock(m);
    PopUnits(m);
    PopCovered(m);
    PopAxis(m, 0);
    PopAxis(m, 1);
    PopAxis(m, 2);
    hide UnitsLeft, Covered, Ordered, AxisOk, Increment, Ticks, Pow2, Located;
  }

  /** The counters of a new block start at half; those of the same block go on. */
  lemma PopAxis(m: Machine, a: nat)
    requires Inv(m) && CanPop(m) && a < 3 && m.queue[0].level <= 3 && m.queue[0].job < |m.jobs|
    ensures var n := Pop(m);
      && 0 <= n.execJob < |m.jobs|
      && n.increments[a] == Increment(m.jobs[n.execJob].steps[a], m.queue[0].level)
      && AxisOk(n, if m.queue[0].job == m.execJob then UnitsLeft(m) else 8 * m.jobs[m.queue[0].job].stepEventCount, a)
  {
    hide UnitsLeft, Covered, Follows, DataKept, Located, Pow2, Untouched;
    assert SegOk(m, m.queue[0]);
    SegmentDataIntact(m, 0);
    FreshExactlyOncePerBlock(m);
    var j := m.jobs[m.queue[0].job];
    assert JobOk(j);
    if m.queue[0].job != m.execJob {
      assert (8 * j.stepEventCount - 8 * j.stepEventCount) * j.steps[a] == 0;
    }
  }

  /** A segment of the block already executing changes nothing of what is left; the first segment of
      the next block starts with all of it. */
  lemma PopUnits(m: Machine)
    requires Inv(m) && CanPop(m)
    ensures m.queue[0].level <= 3 && m.queue[0].job < |m.jobs|
    ensures UnitsLeft(Pop(m)) == if m.queue[0].job == m.execJob then UnitsLeft(m) else 8 * m.jobs[m.queue[0].job].stepEventCount
  {
    var s := m.queue[0];
    assert SegOk(m, s);
    FreshExactlyOncePerBlock(m);
    StepsOfFront(m.queue, s.job);
    assert Ticks(s) * Pow2(3 - s.level) == 8 * s.n;
    assert s.job != m.execJob ==> Covered(m, s.job);
  }

  lemma PopCovered(m: Machine)
    requires Inv(m) && CanPop(m)
    ensures forall j :: Pop(m).execJob < j < m.loaded ==> Covered(Pop(m), j)
  {
    FreshExactlyOncePerBlock(m);
    forall j | Pop(m).execJob < j < m.loaded ensures Covered(Pop(m), j) {
      assert Covered(m, j);
    }
  }

  /** When a block's first segment is taken up, the block before it has run out exactly. */
  lemma BlockRunOut(m: Machine, a: nat)
    requires Inv(m) && CanPop(m) && a < 3 && 0 <= m.execJob < m.queue[0].job
    ensures m.pulses[a] == m.jobs[m.execJob].steps[a]
  {
    forall s | s in m.queue ensures s.job != m.execJob {
      var i :| 0 <= i < |m.queue| && m.queue[i] == s;
      QueueSpread(m.queue, i);
    }
    StepsOfNone(m.queue, m.execJob);
    QueueSpread(m.queue, |m.queue| - 1);
    assert SegOk(m, m.queue[|m.queue| - 1]) && SegOk(m, m.queue[0]);
    var j := m.jobs[m.execJob];
    assert UnitsLeft(m) == 0;
    assert 8 * j.stepEventCount * j.steps[a] == j.steps[a] * (8 * j.stepEventCount);
    BalancedUnique(Axis(m.counters[a], m.pulses[a]), Axis(4 * j.stepEventCount, j.steps[a]), 8 * j.stepEventCount, 4 * j.stepEventCount, 8 * j.stepEventCount * j.steps[a]);
  }

  lemma PopLocated(m: Machine, a: nat)
    requires Inv(m) && CanPop(m) && a < 3
    ensures -1 <= Pop(m).execJob < |m.jobs| && Located(Pop(m), a)
  {
    hide Accounted, UnitsLeft, Covered, Follows, DataKept, AxisOk, PlannedMove, Increment, Pow2;
    PlannedAs(m, Pop(m), a);
    FreshExactlyOncePerBlock(m);
    assert SegOk(m, m.queue[0]);
    if 0 <= m.execJob < m.queue[0].job {
      BlockRunOut(m, a);
    }
  }

  lemma StepInv(m: Machine)
    requires Inv(m) && m.executing
    ensures Inv(Step(m))
  {
    StepOrdered(m);
    StepUnits(m);
    StepCovered(m);
    StepAxis(m, 0);
    StepAxis(m, 1);
    StepAxis(m, 2);
    StepLocated(m, 0);
    StepLocated(m, 1);
    StepLocated(m, 2);
  }

  lemma StepUnits(m: Machine)
    requires Inv(m) && m.executing && Shape(Step(m)) && Ordered(Step(m))
    ensures Step(m).queue != [] ==> SegOk(Step(m), Step(m).queue[0])
    ensures m.queue[0].level <= 3 && UnitsLeft(Step(m)) == UnitsLeft(m) - Pow2(3 - m.queue[0].level)
  {
    hide Covered, Follows, AxisOk, Located, SumSigned, DataKept, Untouched, JobOk, SlotOf, MoveOf, TickCounter, TickPulse;
    assert SegOk(m, m.queue[0]);
    var n, w := Step(m), Pow2(3 - m.queue[0].level);
    assert (m.stepCount - 1) * w == m.stepCount * w - w;
  }

  lemma StepCovered(m: Machine)
    requires Inv(m) && m.executing
    ensures forall j :: m.execJob < j < m.loaded ==> Covered(Step(m), j)
  {
    forall j | m.execJob < j < m.loaded ensures Covered(Step(m), j) {
      assert Covered(m, j);
      StepsOfFront(m.queue, j);
    }
  }

  /** One axis through one tick: counter, pulses and motor position. */
  lemma StepLocated(m: Machine, a: nat)
    requires Inv(m) && m.executing && a < 3
    ensures Step(m).execJob == m.execJob && Located(Step(m), a)
  {
    hide Accounted, Covered, Follows, SumSigned, DataKept, TickPulse, Pow2, PlannedMove;
    SegmentDataIntact(m, 0);
    assert SegOk(m, m.queue[0]);
    assert PlannedMove(Step(m), a) == PlannedMove(m, a) by { PlannedAs(m, Step(m), a); }
  }

  lemma PlannedAs(m: Machine, n: Machine, a: nat)
    requires a < 3 && m.inv == n.inv && m.plannerPosition == n.plannerPosition && m.start == n.start
    ensures PlannedMove(m, a) == PlannedMove(n, a)
  {
  }

  lemma StepAxis(m: Machine, a: nat)
    requires Inv(m) && m.executing && a < 3
    requires m.queue[0].level <= 3 && UnitsLeft(m) >= Pow2(3 - m.queue[0].level)
    ensures Step(m).execJob == m.execJob && AxisOk(Step(m), UnitsLeft(m) - Pow2(3 - m.queue[0].level), a)
  {
    hide UnitsLeft, Covered, Follows, SumSigned, DataKept, TickCounter, TickPulse, Pow2, Balanced, Located;
    SegmentDataIntact(m, 0);
    assert SegOk(m, m.queue[0]);
    var j, w, u := m.jobs[m.execJob], Pow2(3 - m.queue[0].level), UnitsLeft(m);
    assert JobOk(j) && AxisOk(m, u, a);
    var st, events := j.steps[a], 8 * j.stepEventCount;
    assert m.increments[a] == st * w;
    AxisTick(m.counters[a], m.pulses[a], st, w, j.stepEventCount, u, (events - u) * st);
  }

  lemma AxisTick(c: int, p: nat, st: nat, w: nat, count: nat, u: int, added: int)
    requires st <= count && w <= 8 && Balanced(Axis(c, p), 8 * count, 4 * count, added)
    ensures var i := st * w;
      && Balanced(Axis(TickCounter(c, i, 8 * count), p + TickPulse(c, i, 8 * count)), 8 * count, 4 * count, added + i)
      && (8 * count - u) * st + i == (8 * count - (u - w)) * st
  {
    hide TickCounter, TickPulse, Balanced;
    IncrementFits(st, w, count, u);
    TickBalanced(Axis(c, p), st * w, 8 * count, 4 * count, added);
  }

  lemma IncrementFits(st: nat, w: nat, count: nat, u: int)
    requires st <= count && w <= 8
    ensures st * w <= 8 * count
    ensures (8 * count - u) * st + st * w == (8 * count - (u - w)) * st
  {
    assert st * w <= st * 8;
  }

  lemma StepOrdered(m: Machine)
    requires Inv(m) && m.executing
    ensures Shape(Step(m)) && Ordered(Step(m))
  {
    var n := Step(m);
    assert SegOk(m, m.queue[0]);
    assert Shape(n);
    var d := if m.stepCount == 1 then 1 else 0;
    assert n.queue == m.queue[d..];
    forall i | 0 <= i < |n.queue| ensures SegOk(n, n.queue[i]) {
      assert SegOk(m, m.queue[i + d]);
    }
    forall i | 0 <= i < |n.queue| - 1 ensures Follows(n.queue, i) {
      assert Follows(m.queue, i + d);
    }
    if n.queue != [] && d == 1 {
      assert Follows(m.queue, 0);
    }
    forall j | n.loaded - ST_BLOCKS <= j < n.loaded && j >= 0 ensures DataKept(n, j) {
      assert DataKept(m, j);
    }
  }

  // ---- Runs ----

  /** One event: the main program plans a line, takes up a block or commits a segment, or the timer
      interrupt fires. Losing and regaining the block pointer for a replan changes nothing here. */
  datatype Action = PlanALine(target: Triple) | TakeUpBlock | CutSegment(n: nat, level: nat) | TimerTick

  function Tick(m: Machine): Machine
    requires Inv(m)
  {
    if m.executing then Step(m)
    else if m.queue == [] then m
    else PopInv(m); Step(Pop(m))
  }

  predicate Levelled(q: seq<Seg>) {
    forall i :: 0 <= i < |q| ==> q[i].level <= 3
  }

  /** The ticks of queued segments. */
  ghost function TicksOf(q: seq<Seg>): nat
    requires Levelled(q)
  {
    if q == [] then 0 else Ticks(q[0]) + TicksOf(q[1..])
  }

  ghost function TicksLeft(m: Machine): nat
    requires Levelled(m.queue) && (m.executing ==> m.queue != [])
  {
    if m.executing then m.stepCount + TicksOf(m.queue[1..]) else TicksOf(m.queue)
  }

  lemma InvLevels(m: Machine)
    requires Inv(m)
    ensures Levelled(m.queue) && (m.executing ==> m.queue != [] && m.stepCount > 0)
  {
    hide Accounted, Located;
    forall i | 0 <= i < |m.queue| ensures m.queue[i].level <= 3 {
      assert SegOk(m, m.queue[i]);
    }
  }

  /** Every interrupt with a segment in the ring does one of the ticks there are: none is lost when a segment is taken
      up, and none is done twice. */
  lemma TickWorks(m: Machine)
    requires Inv(m) && m.queue != []
    ensures Levelled(Tick(m).queue) && (Tick(m).executing ==> Tick(m).queue != []) && TicksLeft(Tick(m)) == TicksLeft(m) - 1
  {
    InvLevels(m);
    if !m.executing {
      PopInv(m);
      InvLevels(Pop(m));
    }
    hide Inv;
  }

  ghost predicate Enabled(m: Machine, a: Action) {
    match a
    case TakeUpBlock => CanTakeUp(m)
    case CutSegment(n, level) => CanCut(m, n, level)
    case _ => true
  }

  function Apply(m: Machine, a: Action): Machine
    requires Inv(m) && Enabled(m, a)
  {
    match a
    case PlanALine(target) => PlanLine(m, target)
    case TakeUpBlock => TakeUp(m)
    case CutSegment(n, level) => Cut(m, n, level)
    case TimerTick => Tick(m)
  }

  lemma ApplyInv(m: Machine, a: Action)
    requires Inv(m) && Enabled(m, a)
    ensures Inv(Apply(m, a))
  {
    match a
    case PlanALine(target) => PlanLineInv(m, target);
    case TakeUpBlock => TakeUpInv(m);
    case CutSegment(n, level) => CutInv(m, n, level);
    case TimerTick =>
      if m.executing {
        StepInv(m);
      } else if m.queue != [] {
        PopInv(m);
        StepInv(Pop(m));
      }
  }

  /** A run: every machine follows from the one before by some enabled action. */
  ghost predicate IsRun(run: seq<Machine>, actions: seq<Action>) {
    && |run| == |actions| + 1
    && forall i :: 0 <= i < |actions| ==> StepsTo(run[i], actions[i], run[i + 1])
  }

  ghost predicate StepsTo(m: Machine, a: Action, n: Machine) {
    Inv(m) ==> Enabled(m, a) && n == Apply(m, a)
  }

  lemma {:induction false} RunInv(run: seq<Machine>, actions: seq<Action>, k: nat)
    requires IsRun(run, actions) && k < |run| && Inv(run[0])
    ensures Inv(run[k])
  {
    if k > 0 {
      RunInv(run, actions, k - 1);
      assert StepsTo(run[k - 1], actions[k - 1], run[k]);
      ApplyInv(run[k - 1], actions[k - 1]);
    }
  }

  /** Signed steps the executing block still owes motor a, from the counter and the ticks left. */
  ghost function Owed(st: nat, count: nat, u: nat, c: int): int
    requires count > 0
  {
    (u * st + c - 4 * count) / (8 * count)
  }

  ghost function OwedByExecuting(m: Machine, a: nat): int
    requires Inv(m) && a < 3
  {
    if m.execJob < 0 then 0
    else
      var j := m.jobs[m.execJob];
      var owed := Owed(j.steps[a], j.stepEventCount, UnitsLeft(m), m.counters[a]);
      if j.negative[a] then -owed else owed
  }

  /** Signed steps of all blocks that have not started to execute. */
  ghost function OwedByWaiting(m: Machine, a: nat): int
    requires Inv(m) && a < 3
  {
    SumSigned(m.jobs, |m.jobs|, a) - SumSigned(m.jobs, m.execJob + 1, a)
  }

  /** Conservation: at every moment the way the motors have gone since the last synchronisation, plus the
      steps owed, is the way the planner has gone. */
  lemma InvLocated(m: Machine, a: nat)
    requires Inv(m) && a < 3
    ensures -1 <= m.execJob < m.loaded <= |m.jobs| && Located(m, a)
    ensures m.executing ==> m.queue != [] && m.queue[0].level <= 3
  {
  }

  lemma ExecutingAxis(m: Machine, a: nat)
    requires Inv(m) && a < 3 && m.execJob >= 0
    ensures JobOk(m.jobs[m.execJob])
    ensures var count := m.jobs[m.execJob].stepEventCount;
      Balanced(Axis(m.counters[a], m.pulses[a]), 8 * count, 4 * count, (8 * count - UnitsLeft(m)) * m.jobs[m.execJob].steps[a])
  {
    hide Balanced, UnitsLeft, Located, Covered, Follows, DataKept;
    assert AxisOk(m, UnitsLeft(m), a);
  }

  lemma PositionConserved(m: Machine, a: nat)
    requires Inv(m) && a < 3
    ensures m.position[a] - m.start[a] + OwedByExecuting(m, a) + OwedByWaiting(m, a) == PlannedMove(m, a)
  {
    hide Inv, Owed, UnitsLeft, AxisOk, PlannedMove;
    InvLocated(m, a);
    if m.execJob >= 0 {
      var j, u := m.jobs[m.execJob], UnitsLeft(m);
      ExecutingAxis(m, a);
      OwedPulses(j.steps[a], j.stepEventCount, u, m.counters[a], m.pulses[a]);
    }
  }

  lemma OwedPulses(st: nat, count: nat, u: nat, c: int, p: nat)
    requires count > 0 && Balanced(Axis(c, p), 8 * count, 4 * count, (8 * count - u) * st)
    ensures Owed(st, count, u, c) == st - p
  {
    assert (8 * count - u) * st == 8 * count * st - u * st;
    var x, d := u * st + c - 4 * count, 8 * count;
    assert x == d * (st - p);
    DivExact(d, st - p, x);
  }

  lemma DivExact(d: nat, q: int, x: int)
    requires d > 0 && x == d * q
    ensures x / d == q
  {
    assert d * (x / d - q) == -(x % d);
    SmallMultiple(x / d - q, d);
  }

  /** Nothing is planned, prepared or executing any more. */
  ghost predicate Drained(m: Machine) {
    m.queue == [] && !m.cutting && m.loaded == |m.jobs|
  }

  /** What has run dry has gone exactly the way of the planner since the last synchronisation, at whatever motor
      position and with whatever direction settings that was. Reading the position back then gives each axis of
      the planner position unchanged exactly as `ReadsBack` and the Z setting say: X and Y always from an even
      motor sum. */
  lemma DrainedReadsBack(m: Machine)
    requires Inv(m) && Drained(m)
    ensures (forall a :: 0 <= a < 3 ==> m.position[a] - m.start[a] == PlannedMove(m, a)) && SyncedBack(m)
  {
    hide Inv, Drained;
    forall a | 0 <= a < 3 ensures m.position[a] - m.start[a] == PlannedMove(m, a) {
      DrainedInPlace(m, a);
    }
    SyncAfterMove(m.inv, m.start, m.plannerPosition, m.position);
  }

  ghost predicate SyncedBack(m: Machine) {
    var r, p, s := SyncPosition(m.inv, m.position), m.plannerPosition, m.start;
    && (r[0] == p[0] <==> ReadsBack(Sign(m.inv.x) * (s[0] + s[1]), p[0]))
    && (r[1] == p[1] <==> ReadsBack(Sign(m.inv.y) * (s[0] - s[1]), p[1]))
    && (r[2] == p[2] <==> !m.inv.z || p[2] == s[2])
    && ((s[0] + s[1]) % 2 == 0 ==> (r == p <==> !m.inv.z || p[2] == s[2]))
  }

  /** Conservation over whole runs, end to end: so it is after any interleaving from a reset. */
  lemma RunEndsInPlace(inv: Invert, start: Triple, run: seq<Machine>, actions: seq<Action>)
    requires IsRun(run, actions) && run[0] == Initial(inv, start) && Drained(run[|actions|])
    ensures var m := run[|actions|];
      && m.inv == inv && m.start == start && (forall a :: 0 <= a < 3 ==> m.position[a] - start[a] == PlannedMove(m, a))
      && SyncedBack(m)
  {
    hide Inv, Drained, SyncedBack;
    InitialInv(inv, start);
    RunInv(run, actions, |actions|);
    RunKeepsStart(run, actions, |actions|);
    DrainedReadsBack(run[|actions|]);
  }

  lemma DrainedInPlace(m: Machine, a: nat)
    requires Inv(m) && Drained(m) && a < 3
    ensures m.position[a] - m.start[a] == PlannedMove(m, a)
  {
    PositionConserved(m, a);
    if m.execJob >= 0 {
      var j := m.jobs[m.execJob];
      assert JobOk(j) && UnitsLeft(m) == 0 && AxisOk(m, 0, a);
      assert 8 * j.stepEventCount * j.steps[a] == j.steps[a] * (8 * j.stepEventCount);
      BalancedUnique(Axis(m.counters[a], m.pulses[a]), Axis(4 * j.stepEventCount, j.steps[a]), 8 * j.stepEventCount, 4 * j.stepEventCount, 8 * j.stepEventCount * j.steps[a]);
    }
  }

  lemma {:induction false} RunKeepsStart(run: seq<Machine>, actions: seq<Action>, k: nat)
    requires IsRun(run, actions) && k < |run| && Inv(run[0])
    ensures run[k].inv == run[0].inv && run[k].start == run[0].start
  {
    hide Inv;
    if k > 0 {
      RunKeepsStart(run, actions, k - 1);
      RunInv(run, actions, k - 1);
      assert StepsTo(run[k - 1], actions[k - 1], run[k]);
    }
  }
}
