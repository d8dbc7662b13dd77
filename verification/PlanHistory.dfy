/** Whole histories of the planner: whatever blocks are appended, executed, discarded or held, the plan in
    the buffer is the one two full passes from the tail would give, and the greatest feasible one. */
module PlanHistory {
  import opened SpeedPlan
  import opened VelocityProfile
  import opened Planner

  /** The queued blocks and how many lie before the planned pointer; whether the tail is being prepared or
      is to be taken up again part way; the squared speed within it and the one it is to be left at; and
      whether a feed hold is overriding the plan. */
  datatype PlanState = PlanState(
    queue: seq<PlanBlock>,
    planned: nat,
    executing: bool,
    partialBlock: bool,
    speedSqr: real,
    exitSqr: real,
    holding: bool)

  const EMPTY := PlanState([], 0, false, false, 0.0, 0.0, false)

  datatype Event =
    | Append(block: PlanBlock) // a line is planned and queued
    | Load // the tail block is taken up, for the first time or again
    | Execute(speedSqr: real, millimeters: real) // part of the tail block is prepared
    | Finish // the tail block is prepared to its end, and discarded
    | StartHold // at standstill there is nothing to slow down, and the plan stays in force
    | HoldLoad // the tail block is taken up by the hold's own deceleration
    | HoldExecute(speedSqr: real, millimeters: real) // part of the tail block is prepared, or its steps rounded up
    | EndHold // the machine has stopped: replan from the tail

  ghost predicate Enabled(s: PlanState, e: Event) {
    var q := s.queue;
    match e
    case Append(b) => !s.holding && BlockOk(b) && (if q == [] then b.entrySpeedSqr == 0.0 else b.maxEntrySpeedSqr <= q[|q| - 1].nominalSpeedSqr)
    case Load => !s.holding && !s.executing && q != []
    case Execute(v, mm) =>
      && !s.holding && s.executing && q != [] && mm > 0.0 && v <= q[0].nominalSpeedSqr
      && ProgressOk(s.speedSqr, SpeedGain(q[0]), v, Gain(q[0].acceleration, mm), s.exitSqr)
    case Finish => s.executing && q != []
    case StartHold => !s.holding
    case HoldLoad => s.holding && !s.executing && q != []
    case HoldExecute(v, mm) => s.holding && s.executing && q != [] && mm > 0.0 && v >= 0.0
    case EndHold => s.holding && (q != [] ==> s.executing && s.speedSqr == 0.0)
  }

  /** The squared speed in the tail block. */
  function TailSpeedSqr(s: PlanState): real {
    if s.queue == [] then 0.0 else if s.executing then s.speedSqr else s.queue[0].entrySpeedSqr
  }

  /** The squared speed at which a hold takes up the tail block. */
  function HeldSpeedSqr(s: PlanState): real {
    if s.partialBlock then s.speedSqr else s.exitSqr
  }

  /** The recalculation of a queue. */
  ghost function AfterRecalculation(s: PlanState, q: seq<PlanBlock>, v: real, p: nat): PlanState
    requires p < |q|
  {
    var t := Recalculate(q, v, p);
    s.(queue := t.queue, planned := t.planned, executing := s.executing && p > 0, partialBlock := s.partialBlock || (s.executing && p == 0))
  }

  ghost function Next(s: PlanState, e: Event): PlanState
    requires Enabled(s, e) && s.planned <= |s.queue|
  {
    var q := s.queue;
    match e
    case Append(b) => AfterRecalculation(s, q + [b], TailSpeedSqr(s), s.planned)
    case Load => s.(executing := true, partialBlock := false, speedSqr := q[0].entrySpeedSqr, exitSqr := StoredExit(q, 0))
    case Execute(v, mm) => s.(queue := q[0 := q[0].(millimeters := mm)], speedSqr := v)
    case Finish => s.(queue := q[1..], planned := if s.planned == 0 then 0 else s.planned - 1, executing := false)
    case StartHold =>
      if s.executing && q != [] then
        s.(queue := WithEntry(q, 0, s.speedSqr), executing := false, partialBlock := true, holding := s.speedSqr != 0.0)
      else s.(holding := s.speedSqr != 0.0)
    case HoldLoad =>
      var v := HeldSpeedSqr(s);
      s.(queue := WithEntry(q, 0, v), executing := true, partialBlock := false, speedSqr := v,
         exitSqr := if v < SpeedGain(q[0]) then 0.0 else v - SpeedGain(q[0]))
    case HoldExecute(v, mm) => s.(queue := q[0 := q[0].(millimeters := mm)], speedSqr := v)
    case EndHold =>
      if q == [] then s.(holding := false)
      else AfterRecalculation(s.(holding := false), WithEntry(q, 0, 0.0), 0.0, 0)
  }

  /** A plan being followed: it is optimal, and the exit speed taken up with the tail is the planned one. */
  ghost predicate Following(s: PlanState) {
    && OptimalPlan(s.queue, TailSpeedSqr(s), s.planned)
    && (s.executing ==> s.exitSqr == StoredExit(s.queue, 0))
    && (!s.executing && !s.partialBlock ==> s.exitSqr == TailSpeedSqr(s))
  }

  /** A hold slowing down: every later block can be braked from its planned entry to its planned exit, the
      tail is left no faster than planned, and taken up within its own limits. */
  ghost predicate Slowing(s: PlanState) {
    && StoppablePlan(s.queue)
    && if s.queue == [] then s.exitSqr == 0.0
       else if s.executing then s.exitSqr <= StoredExit(s.queue, 0)
       else HeldSpeedSqr(s) <= s.queue[0].nominalSpeedSqr && HeldSpeedSqr(s) <= StoredExit(s.queue, 0) + SpeedGain(s.queue[0])
  }

  ghost predicate Sound(s: PlanState) {
    && BlocksOk(s.queue) && s.speedSqr >= 0.0 && s.exitSqr >= 0.0
    && (if s.queue == [] then s.planned == 0 && !s.executing && !s.partialBlock else s.planned < |s.queue|)
    && (s.partialBlock ==> !s.executing && s.queue[0].entrySpeedSqr == s.speedSqr)
    && (if s.holding then Slowing(s) else Following(s))
  }

  lemma AppendSound(s: PlanState, b: PlanBlock)
    requires Sound(s) && Enabled(s, Append(b))
    ensures Sound(Next(s, Append(b)))
  {
    hide BlocksOk, BlockOk, StoppablePlan, Recalculate;
    var q, v, t := s.queue, TailSpeedSqr(s), Next(s, Append(b));
    AppendReady(q, v, s.planned, b);
    RecalculateReplans(q + [b], v, s.planned);
    Appended(q, b, t.queue, v, s.planned, t.planned);
    if s.planned > 0 {
      assert t.queue[1] == q[1];
    }
  }

  lemma LoadSound(s: PlanState)
    requires Sound(s) && Enabled(s, Load)
    ensures Sound(Next(s, Load))
  {
    OptimalIsStoppable(s.queue, TailSpeedSqr(s), s.planned);
    StoredExitOk(s.queue);
  }

  lemma ExecuteSound(s: PlanState, v: real, mm: real)
    requires Sound(s) && Enabled(s, Execute(v, mm))
    ensures Sound(Next(s, Execute(v, mm)))
  {
    hide BlocksOk, StoppablePlan;
    PlannedExit(s.queue, s.speedSqr, s.planned);
    OptimalPlanProgress(s.queue, s.speedSqr, s.planned, v, mm);
    TailOk(s.queue);
    BlocksTail(s.queue, s.queue[0].(millimeters := mm));
  }

  lemma FinishSound(s: PlanState)
    requires Sound(s) && Enabled(s, Finish)
    ensures Sound(Next(s, Finish))
  {
    hide BlocksOk, StoppablePlan, AtPlan, Breakpoint, CanStop;
    DiscardKeeps(s.queue, TailSpeedSqr(s), s.planned);
    if s.holding && |s.queue| > 1 {
      NextBrakes(s.queue, s.exitSqr);
    }
  }

  lemma StartHoldSound(s: PlanState)
    requires Sound(s) && Enabled(s, StartHold)
    ensures Sound(Next(s, StartHold))
  {
    hide BlocksOk, StoppablePlan;
    if s.queue != [] {
      OptimalIsStoppable(s.queue, TailSpeedSqr(s), s.planned);
      TailOk(s.queue);
      BlocksTail(s.queue, s.queue[0].(entrySpeedSqr := s.speedSqr));
      StoppableTail(s.queue, s.queue[0].(entrySpeedSqr := s.speedSqr));
      OptimalIgnoresEntry(s.queue, TailSpeedSqr(s), s.planned, s.speedSqr);
    } else {
      assert StoppablePlan(s.queue) by { EmptyStops(); }
    }
  }

  lemma EmptyStops()
    ensures StoppablePlan([])
  {
  }

  lemma HoldLoadSound(s: PlanState)
    requires Sound(s) && Enabled(s, HoldLoad)
    ensures Sound(Next(s, HoldLoad))
  {
    hide BlocksOk, StoppablePlan, SpeedGain;
    StoredExitOk(s.queue);
    TailOk(s.queue);
    BlocksTail(s.queue, s.queue[0].(entrySpeedSqr := HeldSpeedSqr(s)));
    StoppableTail(s.queue, s.queue[0].(entrySpeedSqr := HeldSpeedSqr(s)));
  }

  lemma HoldExecuteSound(s: PlanState, v: real, mm: real)
    requires Sound(s) && Enabled(s, HoldExecute(v, mm))
    ensures Sound(Next(s, HoldExecute(v, mm)))
  {
    hide BlocksOk, StoppablePlan, SpeedGain;
    TailOk(s.queue);
    BlocksTail(s.queue, s.queue[0].(millimeters := mm));
    StoppableTail(s.queue, s.queue[0].(millimeters := mm));
  }

  lemma EndHoldSound(s: PlanState)
    requires Sound(s) && Enabled(s, EndHold)
    ensures Sound(Next(s, EndHold))
  {
    hide BlocksOk, StoppablePlan, Recalculate, AtPlan, Breakpoint, CanStop;
    if s.queue != [] {
      var q, t := WithEntry(s.queue, 0, 0.0), Next(s, EndHold);
      StoppedTail(s.queue);
      ReplanFromStandstill(q);
      RecalculateReplans(q, 0.0, 0);
      ReplannedOptimal(q, t.queue, 0.0, t.planned);
    }
  }

  /** Every event keeps a history sound. */
  lemma NextSound(s: PlanState, e: Event)
    requires Sound(s) && Enabled(s, e)
    ensures Sound(Next(s, e))
  {
    match e {
      case Append(b) => AppendSound(s, b);
      case Load => LoadSound(s);
      case Execute(v, mm) => ExecuteSound(s, v, mm);
      case Finish => FinishSound(s);
      case StartHold => StartHoldSound(s);
      case HoldLoad => HoldLoadSound(s);
      case HoldExecute(v, mm) => HoldExecuteSound(s, v, mm);
      case EndHold => EndHoldSound(s);
    }
  }

  ghost predicate Follows(run: seq<PlanState>, events: seq<Event>, k: nat)
    requires |run| == |events| + 1 && k < |events|
  {
    Enabled(run[k], events[k]) && run[k].planned <= |run[k].queue| && run[k + 1] == Next(run[k], events[k])
  }

  ghost predicate IsHistory(run: seq<PlanState>, events: seq<Event>) {
    |run| == |events| + 1 && run[0] == EMPTY && forall k :: 0 <= k < |events| ==> Follows(run, events, k)
  }

  lemma {:induction false} HistorySound(run: seq<PlanState>, events: seq<Event>, k: nat)
    requires IsHistory(run, events) && k <= |events|
    ensures Sound(run[k])
  {
    if k > 0 {
      HistorySound(run, events, k - 1);
      assert Follows(run, events, k - 1);
      NextSound(run[k - 1], events[k - 1]);
    }
  }

  /** In every history, outside a feed hold, every entry speed after the tail is the one the two passes give
      when taken over the whole queue from the tail with nothing skipped, and the exit speed the stepper
      took up with the tail is still the planned one; the plan is feasible, can stop, and no other feasible
      plan from the tail's speed is faster anywhere. */
  lemma CacheAlwaysSound(run: seq<PlanState>, events: seq<Event>, k: nat)
    requires IsHistory(run, events) && k <= |events| && !run[k].holding && run[k].queue != []
    ensures var q, v := run[k].queue, TailSpeedSqr(run[k]);
      && (forall i :: 1 <= i < |q| ==> AtPlan(q, LimitsOf(q), v, i))
      && (run[k].executing ==> run[k].exitSqr == ExitOf(LimitsOf(q), v))
      && Feasible(LimitsOf(q), EntrySpeeds(q, v))
      && (forall f, i :: Feasible(LimitsOf(q), f) && f[0] == v && 0 <= i < |q| ==> f[i] <= EntrySpeeds(q, v)[i])
  {
    var s := run[k];
    HistorySound(run, events, k);
    OptimalPlanIsGreatest(s.queue, TailSpeedSqr(s), s.planned);
    PlannedExit(s.queue, TailSpeedSqr(s), s.planned);
  }

  /** In every history, through a feed hold no block is left faster than planned, nor taken up faster than its
      nominal speed. */
  lemma HoldsNeverOverrun(run: seq<PlanState>, events: seq<Event>, k: nat)
    requires IsHistory(run, events) && k <= |events| && run[k].holding && run[k].queue != []
    ensures run[k].executing ==> run[k].exitSqr <= StoredExit(run[k].queue, 0)
    ensures !run[k].executing ==> HeldSpeedSqr(run[k]) <= run[k].queue[0].nominalSpeedSqr
  {
    HistorySound(run, events, k);
  }

  // ---- The planner's methods take these steps ----

  ghost function StateOf(planner: Planner, holding: bool): PlanState
    reads planner
  {
    PlanState(planner.queue, planner.planned, planner.executing, planner.partialBlock,
              Square(planner.currentSpeed), Square(planner.exitSpeed), holding)
  }

  // In each of these, the state after the method is the event's next state, for every planner in order.

  method AppendStep(planner: Planner, block: PlanBlock)
    requires planner.Valid() && planner.Optimal() && |planner.queue| < BLOCK_BUFFER_SIZE - 1
    requires Enabled(StateOf(planner, false), Append(block))
    modifies planner, planner.blockBuffer
    ensures planner.Valid() && planner.Optimal()
    ensures StateOf(planner, false) == Next(old(StateOf(planner, false)), Append(block))
  {
    hide BlocksOk, BlockOk, OptimalPlan, Recalculate;
    planner.EnqueueBlock(block);
  }

  method LoadStep(planner: Planner, speed: real, exit: real)
    requires planner.Valid() && planner.Optimal() && Enabled(StateOf(planner, false), Load)
    requires speed >= 0.0 && Square(speed) == planner.queue[0].entrySpeedSqr
    requires exit >= 0.0 && Square(exit) == StoredExit(planner.queue, 0)
    modifies planner
    ensures planner.Valid() && planner.Optimal()
    ensures StateOf(planner, false) == Next(old(StateOf(planner, false)), Load)
  {
    planner.LoadBlock(speed, exit);
  }

  method ExecuteStep(planner: Planner, speed: real, millimeters: real)
    requires planner.Valid() && planner.Optimal() && speed >= 0.0
    requires Enabled(StateOf(planner, false), Execute(Square(speed), millimeters))
    modifies planner, planner.blockBuffer
    ensures planner.Valid() && planner.Optimal()
    ensures StateOf(planner, false) == Next(old(StateOf(planner, false)), Execute(Square(speed), millimeters))
  {
    planner.Progress(speed, millimeters);
  }

  method FinishStep(planner: Planner, holding: bool)
    requires planner.Valid() && Enabled(StateOf(planner, holding), Finish)
    requires if holding then planner.Slowing() else planner.Optimal()
    modifies planner
    ensures planner.Valid() && if holding then planner.Slowing() else planner.Optimal()
    ensures StateOf(planner, holding) == Next(old(StateOf(planner, holding)), Finish)
  {
    planner.FinishBlock();
  }

  method StartHoldStep(planner: Planner)
    requires planner.Valid() && planner.Optimal()
    modifies planner, planner.blockBuffer
    ensures planner.Valid() && if planner.currentSpeed != 0.0 then planner.Slowing() else planner.Optimal()
    ensures StateOf(planner, planner.currentSpeed != 0.0) == Next(old(StateOf(planner, false)), StartHold)
  {
    hide BlocksOk, StoppablePlan, OptimalPlan, SpeedGain;
    SquareMonotone(planner.currentSpeed, 0.0);
    planner.EnterHold();
  }

  method HoldLoadStep(planner: Planner, exit: real)
    requires planner.Valid() && planner.Slowing() && Enabled(StateOf(planner, true), HoldLoad)
    requires exit >= 0.0 && Square(exit) == Next(StateOf(planner, true), HoldLoad).exitSqr
    modifies planner, planner.blockBuffer
    ensures planner.Valid() && planner.Slowing()
    ensures StateOf(planner, true) == Next(old(StateOf(planner, true)), HoldLoad)
  {
    planner.HoldLoadBlock(exit);
  }

  method HoldExecuteStep(planner: Planner, speed: real, millimeters: real)
    requires planner.Valid() && planner.Slowing() && speed >= 0.0
    requires Enabled(StateOf(planner, true), HoldExecute(Square(speed), millimeters))
    modifies planner, planner.blockBuffer
    ensures planner.Valid() && planner.Slowing()
    ensures StateOf(planner, true) == Next(old(StateOf(planner, true)), HoldExecute(Square(speed), millimeters))
  {
    planner.HoldProgress(speed, millimeters);
  }

  method EndHoldStep(planner: Planner)
    requires planner.Valid() && planner.Slowing() && planner.queue != [] && planner.executing && planner.currentSpeed == 0.0
    modifies planner, planner.blockBuffer
    ensures planner.Valid() && planner.Optimal()
    ensures StateOf(planner, false) == Next(old(StateOf(planner, true)), EndHold)
  {
    hide BlocksOk, StoppablePlan, OptimalPlan, Recalculate, SameBlocks;
    planner.PlanCycleReinitialize();
  }
}
