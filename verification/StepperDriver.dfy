/** The step generator's static data and the code that updates it in place: the two rings, the
    preparation side, and the main timer interrupt. Each operation is one step of StepperMachine. */
module StepperDriver {
  import opened Bresenham
  import opened CoreXY
  import opened StepperMachine

  datatype SegmentSlot = SegmentSlot(nStep: nat, stBlockIndex: nat, amassLevel: nat)

  function Next(i: nat): nat {
    if i + 1 == SEGMENT_BUFFER_SIZE then 0 else i + 1
  }

  function RingSlot(tail: nat, i: nat): (r: nat)
    requires tail < SEGMENT_BUFFER_SIZE && i < SEGMENT_BUFFER_SIZE
    ensures r < SEGMENT_BUFFER_SIZE
  {
    if tail + i < SEGMENT_BUFFER_SIZE then tail + i else tail + i - SEGMENT_BUFFER_SIZE
  }

  ghost predicate Holds(slot: SegmentSlot, s: Seg) {
    s.level <= 3 && slot == SegmentSlot(Ticks(s), s.stBlockIndex, s.level)
  }

  /** The segments of q are in the ring from the tail on, and one slot stays free. */
  ghost predicate RingHolds(ring: seq<SegmentSlot>, tail: nat, q: seq<Seg>) {
    && |ring| == SEGMENT_BUFFER_SIZE && tail < SEGMENT_BUFFER_SIZE && |q| < SEGMENT_BUFFER_SIZE
    && forall i :: 0 <= i < |q| ==> Holds(ring[RingSlot(tail, i)], q[i])
  }

  lemma RingPush(ring: seq<SegmentSlot>, tail: nat, q: seq<Seg>, slot: SegmentSlot, s: Seg)
    requires RingHolds(ring, tail, q) && |q| < SEGMENT_BUFFER_SIZE - 1 && Holds(slot, s)
    ensures RingHolds(ring[RingSlot(tail, |q|) := slot], tail, q + [s]) && Next(RingSlot(tail, |q|)) == RingSlot(tail, |q| + 1)
  {
    hide Holds;
  }

  lemma RingPop(ring: seq<SegmentSlot>, tail: nat, q: seq<Seg>)
    requires RingHolds(ring, tail, q) && q != []
    ensures Holds(ring[tail], q[0]) && RingHolds(ring, Next(tail), q[1..]) && RingSlot(Next(tail), |q| - 1) == RingSlot(tail, |q|)
  {
    hide Holds;
    assert ring[RingSlot(tail, 0)] == ring[tail];
    forall i | 0 <= i < |q| - 1 ensures Holds(ring[RingSlot(Next(tail), i)], q[1..][i]) {
      assert RingSlot(Next(tail), i) == RingSlot(tail, i + 1);
    }
  }

  lemma ScaledIs(j: Job)
    ensures Scaled(j) == StBlock([8 * j.steps[0], 8 * j.steps[1], 8 * j.steps[2]], j.negative, 8 * j.stepEventCount)
  {
  }

  /** What a tick changes besides counters, pulses and position. */
  lemma StepFrame(m: Machine)
    requires m.queue != [] && m.execIndex < |m.stBlocks| && m.stepCount > 0
    ensures var n := Step(m);
      && n.stepCount == m.stepCount - 1 && n.executing == (m.stepCount > 1)
      && n.queue == (if m.stepCount == 1 then m.queue[1..] else m.queue)
      && n.stBlocks == m.stBlocks && n.prepIndex == m.prepIndex && n.execIndex == m.execIndex && n.increments == m.increments
  {
    hide TickCounter, TickPulse, MoveOf;
  }

  class StepperDriver {
    const segmentBuffer: array<SegmentSlot>
    var segmentBufferTail: nat
    var segmentBufferHead: nat
    var segmentNextHead: nat
    const stBlockBuffer: array<StBlock>
    var prepStBlockIndex: nat
    // st
    var execSegment: bool // the segment at the tail is executing
    var execBlockIndex: nat
    var counters: Triple
    var steps: Counts
    var stepCount: nat
    var position: Triple
    // The machine this is in the state of
    ghost var m: Machine

    ghost predicate RingOk()
      reads this, segmentBuffer, stBlockBuffer
    {
      && segmentBuffer.Length == SEGMENT_BUFFER_SIZE && stBlockBuffer.Length == ST_BLOCKS
      && RingHolds(segmentBuffer[..], segmentBufferTail, m.queue)
      && segmentBufferHead == RingSlot(segmentBufferTail, |m.queue|) && segmentNextHead == Next(segmentBufferHead)
      && stBlockBuffer[..] == m.stBlocks && prepStBlockIndex == m.prepIndex
      && execSegment == m.executing && execBlockIndex == m.execIndex && counters == m.counters
      && steps == m.increments && stepCount == m.stepCount && position == m.position
    }

    ghost predicate Valid()
      reads this, segmentBuffer, stBlockBuffer
    {
      RingOk() && Inv(m)
    }

    constructor StReset(inv: Invert, position: Triple)
      ensures Valid() && m == Initial(inv, position)
    {
      segmentBuffer := new SegmentSlot[SEGMENT_BUFFER_SIZE](_ => SegmentSlot(0, 0, 0));
      stBlockBuffer := new StBlock[ST_BLOCKS](_ => StBlock([0, 0, 0], [false, false, false], 0));
      segmentBufferTail, segmentBufferHead, segmentNextHead, prepStBlockIndex := 0, 0, 1, 0;
      execSegment, execBlockIndex, counters, steps, stepCount := false, 0, [0, 0, 0], [0, 0, 0], 0;
      this.position := position;
      m := Initial(inv, position);
      new;
      assert stBlockBuffer[..] == m.stBlocks;
      InitialInv(inv, position);
    }

    method HasRoom() returns (room: bool)
      requires Valid()
      ensures room <==> |m.queue| < SEGMENT_BUFFER_SIZE - 1
    {
      room := segmentBufferTail != segmentNextHead;
    }

    /** The planner has queued a line to `target`. */
    ghost method PlanJob(target: Triple)
      requires Valid()
      modifies this`m
      ensures Valid() && m == PlanLine(old(m), target)
    {
      PlanLineInv(m, target);
      hide Inv, RingHolds, Plan;
      m := PlanLine(m, target);
    }

    /** Stores the data of a newly taken up planner block. */
    method TakeUpPlannerBlock(block: Job)
      requires Valid() && CanTakeUp(m) && block == m.jobs[m.loaded]
      modifies this`prepStBlockIndex, this`m, stBlockBuffer
      ensures Valid() && m == TakeUp(old(m))
    {
      TakeUpInv(m);
      hide Inv, Scaled, Ticks;
      assert Scaled(block) == StBlock([8 * block.steps[0], 8 * block.steps[1], 8 * block.steps[2]], block.negative, 8 * block.stepEventCount) by {
        ScaledIs(block);
      }
      prepStBlockIndex := prepStBlockIndex + 1;
      if prepStBlockIndex == SEGMENT_BUFFER_SIZE - 1 {
        prepStBlockIndex := 0;
      }
      stBlockBuffer[prepStBlockIndex] := StBlock([8 * block.steps[0], 8 * block.steps[1], 8 * block.steps[2]], block.negative, 8 * block.stepEventCount);
      m := TakeUp(m);
    }

    /** Fills the free segment slot and advances the head. */
    method CommitSegment(n: nat, level: nat)
      requires Valid() && CanCut(m, n, level)
      modifies this`segmentBufferHead, this`segmentNextHead, this`m, segmentBuffer
      ensures Valid() && m == Cut(old(m), n, level)
    {
      CutInv(m, n, level);
      StoreSegment(n, level);
    }

    method StoreSegment(n: nat, level: nat)
      requires RingOk() && CanCut(m, n, level) && m.loaded > 0
      modifies this`segmentBufferHead, this`segmentNextHead, this`m, segmentBuffer
      ensures RingOk() && m == Cut(old(m), n, level)
    {
      ghost var slot, s := SegmentSlot(n * Pow2(level), prepStBlockIndex, level), Seg(n, level, m.prepIndex, m.loaded - 1);
      assert Holds(slot, s);
      RingPush(segmentBuffer[..], segmentBufferTail, m.queue, slot, s);
      hide Pow2, RingHolds, Holds;
      segmentBuffer[segmentBufferHead] := SegmentSlot(n * Pow2(level), prepStBlockIndex, level);
      segmentBufferHead := segmentNextHead;
      segmentNextHead := segmentNextHead + 1;
      if segmentNextHead == SEGMENT_BUFFER_SIZE {
        segmentNextHead := 0;
      }
      assert segmentBuffer[..] == old(segmentBuffer[..])[old(segmentBufferHead) := slot];
      m := Cut(m, n, level);
    }

    /** The main timer interrupt. `cycleStop` is raised when there was nothing to execute. */
    method MainTimerIsr() returns (cycleStop: bool)
      requires Valid()
      modifies this`execSegment, this`execBlockIndex, this`counters, this`steps, this`stepCount, this`position, this`segmentBufferTail, this`m
      ensures Valid() && m == Tick(old(m))
      ensures cycleStop <==> !old(m).executing && old(m).queue == []
    {
      cycleStop := false;
      if !execSegment {
        if segmentBufferHead != segmentBufferTail {
          PopInv(m);
          LoadSegment();
        } else {
          cycleStop := true;
          return;
        }
      }
      StepInv(m);
      StepSegment();
    }

    method LoadSegment()
      requires RingOk() && CanPop(m) && m.queue[0].level <= 3 && m.queue[0].stBlockIndex < |m.stBlocks|
      modifies this`execSegment, this`execBlockIndex, this`counters, this`steps, this`stepCount, this`m
      ensures RingOk() && m == Pop(old(m))
    {
      RingPop(segmentBuffer[..], segmentBufferTail, m.queue);
      hide RingHolds, Pow2, RingSlot;
      var segment := segmentBuffer[segmentBufferTail];
      execSegment := true;
      stepCount := segment.nStep;
      if execBlockIndex != segment.stBlockIndex {
        execBlockIndex := segment.stBlockIndex;
        var half := stBlockBuffer[execBlockIndex].stepEventCount / 2;
        counters := [half, half, half];
      }
      var b := stBlockBuffer[execBlockIndex];
      steps := [b.steps[0] / Pow2(segment.amassLevel), b.steps[1] / Pow2(segment.amassLevel), b.steps[2] / Pow2(segment.amassLevel)];
      m := Pop(m);
    }

    /** One Bresenham step of axis a. */
    method StepAxis(a: nat)
      requires a < 3 && execBlockIndex < stBlockBuffer.Length
      modifies this`counters, this`position
      ensures var b := stBlockBuffer[execBlockIndex];
        var pulse := TickPulse(old(counters[a]), steps[a], b.stepEventCount);
        && counters == old(counters)[a := TickCounter(old(counters[a]), steps[a], b.stepEventCount)]
        && position == old(position)[a := old(position[a]) + if b.negative[a] then -(pulse as int) else pulse as int]
    {
      var block := stBlockBuffer[execBlockIndex];
      counters := counters[a := counters[a] + steps[a]];
      if counters[a] > block.stepEventCount {
        counters := counters[a := counters[a] - block.stepEventCount];
        if block.negative[a] {
          position := position[a := position[a] - 1];
        } else {
          position := position[a := position[a] + 1];
        }
      }
    }

    method StepAllAxes()
      requires m.queue != [] && m.execIndex < ST_BLOCKS && m.stepCount > 0
      requires stBlockBuffer[..] == m.stBlocks && execBlockIndex == m.execIndex && |m.stBlocks| == ST_BLOCKS
      requires counters == m.counters && steps == m.increments && position == m.position
      modifies this`counters, this`position
      ensures counters == Step(m).counters && position == Step(m).position
    {
      StepAxis(0);
      StepAxis(1);
      StepAxis(2);
    }

    method StepSegment()
      requires RingOk() && m.queue != [] && m.execIndex < ST_BLOCKS && m.stepCount > 0 && m.executing
      modifies this`execSegment, this`counters, this`stepCount, this`position, this`segmentBufferTail, this`m
      ensures RingOk() && m == Step(old(m))
    {
      hide Step, Ticks, RingHolds, RingSlot;
      StepAllAxes();
      StepFrame(m);
      RingPop(segmentBuffer[..], segmentBufferTail, m.queue);
      stepCount := stepCount - 1;
      if stepCount == 0 {
        execSegment := false;
        segmentBufferTail := segmentBufferTail + 1;
        if segmentBufferTail == SEGMENT_BUFFER_SIZE {
          segmentBufferTail := 0;
        }
      }
      m := Step(m);
    }
  }
}
