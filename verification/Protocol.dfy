/** Realtime command execution: one pass over the flags set by interrupts, the loop that keeps the main
    program suspended, and the safety-door interlock over whole runs. */
module Protocol {

  datatype State = Idle | Alarm | CheckMode | Homing | Cycle | Hold | SafetyDoor | MotionCancel

  /** The bits of sys.suspend. */
  datatype Suspend = Suspend(hold: bool, ready: bool, energize: bool, cancel: bool)

  const DISABLED := Suspend(false, false, false, false)

  /** System and spindle state; the modal fields are what the g-code program last asked for. */
  datatype Sys = Sys(state: State, suspend: Suspend, spindle: bool, coolant: bool, spindleModal: bool, coolantModal: bool)

  datatype Flags = Flags(cycleStart: bool, cycleStop: bool, feedHold: bool, reset: bool, safetyDoor: bool, motionCancel: bool)

  /** What one pass reads: the alarm byte (any flag, and the critical one), the flags, the door pin, whether
      the planner holds a block, and whether a soft limit was hit. */
  datatype Input = Input(alarm: bool, critical: bool, flags: Flags, doorAjar: bool, hasBlock: bool, softLimit: bool)

  /** What a pass does: the new state, whether it aborted on a reset, and whether it told the stepper to
      replan the executing block for a hold. */
  datatype Outcome = Outcome(sys: Sys, abort: bool, replanned: bool)

  predicate HoldFlags(flags: Flags) {
    flags.motionCancel || flags.feedHold || flags.safetyDoor
  }

  predicate Holdable(state: State) {
    state !in {Alarm, CheckMode}
  }

  predicate SameModal(s: Sys, t: Sys) {
    t.spindleModal == s.spindleModal && t.coolantModal == s.coolantModal
  }

  // ---- One pass, part by part ----

  /** What a hold request suspends: a running cycle until it is at rest, an idle machine at once. */
  function Suspended(s: Sys): Sys {
    if s.state == Cycle then s.(suspend := DISABLED.(hold := true))
    else if s.state == Idle then s.(suspend := DISABLED.(ready := true)) else s
  }

  function Cancelled(s: Sys, cancel: bool): Sys {
    if cancel then s.(state := if s.state == Cycle then MotionCancel else s.state, suspend := s.suspend.(cancel := true)) else s
  }

  function Held(s: Sys, hold: bool): Sys {
    if hold && s.state != SafetyDoor then s.(state := Hold) else s
  }

  /** The door is open; the result says whether the machine is at rest already. */
  function DoorHeld(s: Sys, door: bool): (Sys, bool) {
    if door then (s.(state := SafetyDoor, suspend := s.suspend.(energize := true)), s.suspend.ready) else (s, false)
  }

  /** Hold handling; the result's flag says whether a cycle stop is forced to power down at once. */
  function Holds(s: Sys, flags: Flags): (Sys, bool) {
    if !HoldFlags(flags) || !Holdable(s.state) then (s, false)
    else DoorHeld(Held(Cancelled(Suspended(s), flags.motionCancel), flags.feedHold), flags.safetyDoor)
  }

  predicate MayResume(s: Sys, flags: Flags) {
    flags.cycleStart && !HoldFlags(flags)
    && (s.state == Idle || (s.state in {Hold, MotionCancel} && s.suspend.ready))
  }

  function CycleStart(s: Sys, flags: Flags, hasBlock: bool): Sys {
    if !MayResume(s, flags) then s
    else
      s.(spindle := s.spindle || (s.suspend.energize && s.spindleModal),
         coolant := s.coolant || (s.suspend.energize && s.coolantModal),
         state := if hasBlock && !s.suspend.cancel then Cycle else Idle,
         suspend := DISABLED)
  }

  function CycleStop(s: Sys, stop: bool, softLimit: bool): Sys {
    if !stop then s
    else if s.state in {Hold, SafetyDoor} && !softLimit then
      var off := s.suspend.energize;
      s.(spindle := s.spindle && !off, coolant := s.coolant && !off, suspend := s.suspend.(ready := true))
    else s.(state := Idle, suspend := DISABLED)
  }

  function DoorCheck(s: Sys, doorAjar: bool): Sys {
    if s.state == SafetyDoor && s.suspend.ready && !doorAjar then s.(state := Hold) else s
  }

  function Pass(s: Sys, input: Input): Outcome {
    var a := if input.alarm then s.(state := Alarm) else s;
    // A critical alarm waits for a reset, so a reset is what the flags then hold.
    if input.flags.reset || (input.alarm && input.critical) then Outcome(a, true, false)
    else
      var (b, forced) := Holds(a, input.flags);
      var c := CycleStart(b, input.flags, input.hasBlock);
      var d := CycleStop(c, input.flags.cycleStop || forced, input.softLimit);
      Outcome(DoorCheck(d, input.doorAjar), false, HoldFlags(input.flags) && a.state == Cycle)
  }

  /** Passes repeat, one input each, until the machine is not suspended or a pass aborts. */
  function Passes(s: Sys, inputs: seq<Input>): Sys {
    if inputs == [] then s else Pass(Passes(s, inputs[..|inputs| - 1]), inputs[|inputs| - 1]).sys
  }

  class Realtime {
    var state: State
    var suspend: Suspend
    var spindle: bool
    var coolant: bool
    var spindleModal: bool
    var coolantModal: bool
    var abort: bool
    var replans: nat // calls made to st_update_plan_block_parameters

    function Value(): Sys
      reads this
    {
      Sys(state, suspend, spindle, coolant, spindleModal, coolantModal)
    }

    method SuspendForHold()
      modifies this`suspend, this`replans
      ensures Value() == Suspended(old(Value()))
      ensures replans == old(replans) + if state == Cycle then 1 else 0
    {
      if state == Cycle {
        replans := replans + 1;
        suspend := DISABLED.(hold := true);
      }
      if state == Idle {
        suspend := DISABLED.(ready := true);
      }
    }

    method HoldForDoor(door: bool) returns (forced: bool)
      modifies this`suspend, this`state
      ensures (Value(), forced) == DoorHeld(old(Value()), door)
    {
      forced := false;
      if door {
        if suspend.ready {
          forced := true;
        }
        suspend := suspend.(energize := true);
        state := SafetyDoor;
      }
    }

    method HoldMotion(cancel: bool, hold: bool)
      modifies this`suspend, this`state
      ensures Value() == Held(Cancelled(old(Value()), cancel), hold)
    {
      if cancel {
        if state == Cycle {
          state := MotionCancel;
        }
        suspend := suspend.(cancel := true);
      }
      if hold {
        if state != SafetyDoor {
          state := Hold;
        }
      }
    }

    method ExecuteHolds(flags: Flags) returns (forced: bool)
      modifies this`suspend, this`state, this`replans
      ensures (Value(), forced) == Holds(old(Value()), flags)
      ensures replans == old(replans) + if HoldFlags(flags) && old(state) == Cycle then 1 else 0
    {
      hide Suspended, Cancelled, Held, DoorHeld;
      forced := false;
      if flags.motionCancel || flags.feedHold || flags.safetyDoor {
        if state == Idle || state in {Cycle, Homing, MotionCancel, Hold, SafetyDoor} {
          SuspendForHold();
          HoldMotion(flags.motionCancel, flags.feedHold);
          forced := HoldForDoor(flags.safetyDoor);
        }
      }
    }

    method ExecuteCycleStart(flags: Flags, hasBlock: bool)
      modifies this
      ensures Value() == CycleStart(old(Value()), flags, hasBlock)
      ensures abort == old(abort) && replans == old(replans)
    {
      if flags.cycleStart {
        if !(flags.feedHold || flags.motionCancel || flags.safetyDoor) {
          if state == Idle || (state in {Hold, MotionCancel} && suspend.ready) {
            if suspend.energize {
              if spindleModal {
                spindle := true;
              }
              if coolantModal {
                coolant := true;
              }
            }
            if hasBlock && !suspend.cancel {
              state := Cycle;
            } else {
              state := Idle;
            }
            suspend := DISABLED;
          }
        }
      }
    }

    method ExecuteCycleStop(stop: bool, softLimit: bool)
      modifies this
      ensures Value() == CycleStop(old(Value()), stop, softLimit)
      ensures abort == old(abort) && replans == old(replans)
    {
      if stop {
        if state in {Hold, SafetyDoor} && !softLimit {
          if suspend.energize {
            spindle := false;
            coolant := false;
          }
          suspend := suspend.(ready := true);
        } else {
          suspend := DISABLED;
          state := Idle;
        }
      }
    }

    method ExecutePass(input: Input)
      modifies this
      ensures var o := Pass(old(Value()), input);
        Value() == o.sys && abort == (old(abort) || o.abort) && replans == old(replans) + if o.replanned then 1 else 0
    {
      hide Holds, CycleStart, CycleStop;
      if input.alarm {
        state := Alarm;
      }
      if input.flags.reset || (input.alarm && input.critical) {
        abort := true;
        return;
      }
      var forced := ExecuteHolds(input.flags);
      ExecuteCycleStart(input.flags, input.hasBlock);
      ExecuteCycleStop(input.flags.cycleStop || forced, input.softLimit);
      if state == SafetyDoor {
        if suspend.ready {
          if !input.doorAjar {
            state := Hold;
          }
        }
      }
    }

    /** Runs passes over the inputs to come until one ends not suspended, or aborts. The main program goes
        on only then: whatever it does, it does with nothing suspended. */
    method ProtocolExecuteRealtime(inputs: seq<Input>) returns (used: nat)
      requires !abort
      modifies this
      ensures used <= |inputs| && Value() == Passes(old(Value()), inputs[..used])
      ensures used == |inputs| || abort || (used > 0 && suspend == DISABLED)
      ensures forall k :: 0 < k < used ==> Passes(old(Value()), inputs[..k]).suspend != DISABLED
    {
      hide Pass;
      used := 0;
      ghost var s := Value();
      while used < |inputs|
        invariant used <= |inputs| && Value() == Passes(s, inputs[..used]) && !abort
        invariant used > 0 ==> suspend != DISABLED
        invariant forall k :: 0 < k < used ==> Passes(s, inputs[..k]).suspend != DISABLED
      {
        assert inputs[..used + 1][..used] == inputs[..used];
        ExecutePass(inputs[used]);
        used := used + 1;
        if abort || suspend == DISABLED {
          return;
        }
      }
    }
  }

  // ---- Runs: passes, and the main program between them ----

  datatype Action = Realtime(input: Input) | Main(next: Sys)

  /** The main program runs only when nothing is suspended; it starts and ends homing, switches check mode
      and clears alarms, and sets the spindle and coolant as programmed. */
  predicate MainMay(s: Sys, next: Sys) {
    && s.suspend == next.suspend == DISABLED
    && (next.state == s.state
        || (s.state in {Idle, Alarm, CheckMode, Homing} && next.state in {Idle, CheckMode, Homing}))
  }

  predicate Follows(s: Sys, action: Action, t: Sys) {
    match action
    case Realtime(input) => t == Pass(s, input).sys
    case Main(next) => MainMay(s, next) && t == next
  }

  predicate StepAt(run: seq<Sys>, actions: seq<Action>, k: nat)
    requires |run| == |actions| + 1 && k < |actions|
  {
    Follows(run[k], actions[k], run[k + 1])
  }

  predicate IsRun(run: seq<Sys>, actions: seq<Action>) {
    |run| == |actions| + 1 && forall k :: 0 <= k < |actions| ==> StepAt(run, actions, k)
  }

  /** No alarm, reset or soft limit. */
  predicate Quiet(action: Action) {
    action.Realtime? ==> !action.input.alarm && !action.input.flags.reset && !action.input.softLimit
  }

  /** A pass that acts on the safety-door flag. */
  predicate DoorEvent(s: Sys, action: Action) {
    action.Realtime? && action.input.flags.safetyDoor && Holdable(s.state)
  }

  /** Held behind the door switch. */
  predicate Locked(s: Sys) {
    s.state == SafetyDoor && s.suspend.energize
  }

  /** The switch is closed again and the machine waits for a cycle start. */
  predicate Waiting(s: Sys) {
    s.state == Hold && s.suspend.ready && s.suspend.energize
  }

  /** The pass saw the door closed with the hold complete. */
  predicate Released(action: Action, after: Sys) {
    action.Realtime? && !action.input.doorAjar && Waiting(after)
  }

  /** A cycle start that no hold flag accompanies. */
  predicate Resumes(action: Action) {
    action.Realtime? && action.input.flags.cycleStart && !HoldFlags(action.input.flags)
  }

  /** A door event locks the machine, or, with the switch already closed and the hold complete, has it wait. */
  lemma DoorEventLocks(s: Sys, action: Action, t: Sys)
    requires Follows(s, action, t) && Quiet(action) && DoorEvent(s, action)
    ensures Locked(t) || Released(action, t)
  {
  }

  /** Out of the lock there is one way, through the closed switch. */
  lemma LockedLeaves(s: Sys, action: Action, t: Sys)
    requires Follows(s, action, t) && Quiet(action) && Locked(s)
    ensures Locked(t) || Released(action, t)
  {
    hide Holds;
    if action.Realtime? {
      LockedHolds(s, action.input.flags);
    }
  }

  lemma LockedHolds(s: Sys, flags: Flags)
    requires Locked(s)
    ensures Locked(Holds(s, flags).0)
  {
  }

  /** Out of waiting there are two: a cycle start, or the door again. */
  lemma WaitingLeaves(s: Sys, action: Action, t: Sys)
    requires Follows(s, action, t) && Quiet(action) && Waiting(s)
    ensures Waiting(t) || Locked(t) || Resumes(action)
  {
    hide Holds;
    if action.Realtime? {
      WaitingHolds(s, action.input.flags);
    }
  }

  lemma WaitingHolds(s: Sys, flags: Flags)
    requires Waiting(s)
    ensures var b := Holds(s, flags).0;
      b.suspend.ready && b.suspend.energize && b.state == if flags.safetyDoor then SafetyDoor else Hold
  {
  }

  /** Some pass at or after `from` released the machine, and a later one before `to` resumed it, with the
      machine waiting all the time in between. */
  ghost predicate ReleasedThenResumed(run: seq<Sys>, actions: seq<Action>, from: nat, to: nat)
    requires |run| == |actions| + 1 && to <= |actions|
  {
    exists c: nat, t: nat ::
      from <= c < t < to && Released(actions[c], run[c + 1]) && Resumes(actions[t])
      && forall k :: c < k <= t ==> Waiting(run[k])
  }

  /** At any moment after a door event, either the machine is locked, or it waits with the release behind it,
      or it has been released and then resumed. */
  lemma {:induction false} DoorHistory(run: seq<Sys>, actions: seq<Action>, i: nat, j: nat)
    requires IsRun(run, actions) && i < j <= |actions|
    requires DoorEvent(run[i], actions[i]) && forall k :: i <= k < j ==> Quiet(actions[k])
    ensures Locked(run[j])
      || (exists c: nat :: i <= c < j && Released(actions[c], run[c + 1]) && forall k :: c < k <= j ==> Waiting(run[k]))
      || ReleasedThenResumed(run, actions, i, j)
  {
    assert StepAt(run, actions, j - 1) && Quiet(actions[j - 1]);
    if j == i + 1 {
      DoorEventLocks(run[i], actions[i], run[j]);
    } else {
      DoorHistory(run, actions, i, j - 1);
      if ReleasedThenResumed(run, actions, i, j - 1) {
      } else if Locked(run[j - 1]) {
        LockedLeaves(run[j - 1], actions[j - 1], run[j]);
      } else {
        WaitingLeaves(run[j - 1], actions[j - 1], run[j]);
        var c: nat :| i <= c < j - 1 && Released(actions[c], run[c + 1]) && forall k :: c < k <= j - 1 ==> Waiting(run[k]);
        if Waiting(run[j]) {
          assert forall k :: c < k <= j ==> Waiting(run[k]);
        }
      }
    }
  }

  /** The interlock. Whatever the order of flags, passes and main-program steps, a machine that runs a cycle
      after a door event has been through a pass that saw the door closed with the hold complete, and then,
      still waiting, through a cycle start that no hold flag accompanied. */
  lemma DoorInterlock(run: seq<Sys>, actions: seq<Action>, i: nat, j: nat)
    requires IsRun(run, actions) && i < j <= |actions|
    requires DoorEvent(run[i], actions[i]) && forall k :: i <= k < j ==> Quiet(actions[k])
    requires run[j].state == Cycle
    ensures ReleasedThenResumed(run, actions, i, j)
  {
    DoorHistory(run, actions, i, j);
  }

  // ---- Power ----

  predicate PoweredDown(s: Sys) {
    s.suspend.ready && s.suspend.energize ==> !s.spindle && !s.coolant
  }

  lemma HoldsPower(s: Sys, flags: Flags)
    requires PoweredDown(s)
    ensures var (t, forced) := Holds(s, flags);
      && (forced ==> flags.safetyDoor && t.state == SafetyDoor) && (PoweredDown(t) || forced)
  {
  }

  lemma StopPowers(s: Sys, stop: bool, softLimit: bool)
    requires PoweredDown(s) || (stop && s.state == SafetyDoor)
    ensures PoweredDown(CycleStop(s, stop, softLimit))
  {
  }

  lemma PassPowersDown(s: Sys, action: Action, t: Sys)
    requires Follows(s, action, t) && PoweredDown(s)
    ensures PoweredDown(t)
  {
    hide Holds, CycleStop;
    if action.Realtime? {
      var input := action.input;
      var a := if input.alarm then s.(state := Alarm) else s;
      HoldsPower(a, input.flags);
      var (b, forced) := Holds(a, input.flags);
      var c := CycleStart(b, input.flags, input.hasBlock);
      StopPowers(c, input.flags.cycleStop || forced, input.softLimit);
    }
  }

  /** At the end of every pass of every run, a hold that is complete and owes power has the spindle and
      coolant off, alarms, resets and soft limits included. */
  lemma {:induction false} AlwaysPoweredDown(run: seq<Sys>, actions: seq<Action>, k: nat)
    requires IsRun(run, actions) && k <= |actions| && run[0].suspend == DISABLED
    ensures PoweredDown(run[k])
  {
    if k > 0 {
      AlwaysPoweredDown(run, actions, k - 1);
      assert StepAt(run, actions, k - 1);
      PassPowersDown(run[k - 1], actions[k - 1], run[k]);
    }
  }

  lemma HoldsKeepModal(s: Sys, flags: Flags)
    ensures SameModal(s, Holds(s, flags).0)
  {
  }

  lemma CyclesKeepModal(s: Sys, flags: Flags, hasBlock: bool, stop: bool, softLimit: bool)
    ensures SameModal(s, CycleStop(CycleStart(s, flags, hasBlock), stop, softLimit))
  {
  }

  lemma PassKeepsModal(s: Sys, input: Input)
    ensures SameModal(s, Pass(s, input).sys)
  {
    hide Holds, CycleStart, CycleStop;
    var a := if input.alarm then s.(state := Alarm) else s;
    var (b, forced) := Holds(a, input.flags);
    HoldsKeepModal(a, input.flags);
    CyclesKeepModal(b, input.flags, input.hasBlock, input.flags.cycleStop || forced, input.softLimit);
  }

  lemma {:induction false} ModalKept(run: seq<Sys>, actions: seq<Action>, i: nat, j: nat)
    requires IsRun(run, actions) && i <= j <= |actions|
    requires forall k :: i <= k < j ==> actions[k].Realtime?
    ensures SameModal(run[i], run[j])
  {
    if i < j {
      ModalKept(run, actions, i, j - 1);
      hide Pass;
      assert StepAt(run, actions, j - 1) && actions[j - 1].Realtime?;
      PassKeepsModal(run[j - 1], actions[j - 1].input);
    }
  }

  /** A resume undoes the power-down: spindle and coolant come back exactly as programmed, whatever happened
      while the machine waited, and the cycle goes on if there is one to go on with. */
  lemma ResumeRestoresPower(run: seq<Sys>, actions: seq<Action>, c: nat, t: nat)
    requires IsRun(run, actions) && run[0].suspend == DISABLED && c < t < |actions|
    requires forall k :: c < k <= t ==> Waiting(run[k])
    requires Resumes(actions[t]) && Quiet(actions[t]) && !actions[t].input.flags.cycleStop
    ensures run[t + 1].spindle == run[c + 1].spindleModal && run[t + 1].coolant == run[c + 1].coolantModal
    ensures run[t + 1].state == if actions[t].input.hasBlock && !run[t].suspend.cancel then Cycle else Idle
    ensures run[t + 1].suspend == DISABLED
  {
    AlwaysPoweredDown(run, actions, t);
    assert StepAt(run, actions, t) && Waiting(run[t]);
    forall k | c + 1 <= k < t ensures actions[k].Realtime? {
      assert StepAt(run, actions, k) && Waiting(run[k]);
    }
    ModalKept(run, actions, c + 1, t);
  }

  /** When a pass starts a cycle, exactly: on a cycle start that no hold, alarm, reset or stop comes with, from rest or
      from a hold that is complete and not cancelled, and with a block to execute. */
  lemma CycleEntry(s: Sys, input: Input)
    requires s.state != Cycle
    ensures Pass(s, input).sys.state == Cycle
      <==> && input.flags.cycleStart && !input.alarm && !input.flags.reset && !input.flags.cycleStop
           && !input.flags.feedHold && !input.flags.motionCancel && !input.flags.safetyDoor
           && (s.state == Idle || (s.suspend.ready && (s.state == Hold || s.state == MotionCancel)))
           && input.hasBlock && !s.suspend.cancel
  {
    hide Pass;
    if HoldFlags(input.flags) {
      HeldEntry(s, input);
    } else {
      FreeEntry(s, input);
    }
  }

  lemma HeldEntry(s: Sys, input: Input)
    requires s.state != Cycle && HoldFlags(input.flags)
    ensures Pass(s, input).sys.state != Cycle
  {
    hide Holds;
    HoldsStartNothing(if input.alarm then s.(state := Alarm) else s, input.flags);
  }

  lemma FreeEntry(s: Sys, input: Input)
    requires s.state != Cycle && !HoldFlags(input.flags)
    ensures Pass(s, input).sys.state == Cycle
      <==> && input.flags.cycleStart && !input.alarm && !input.flags.reset && !input.flags.cycleStop
           && (s.state == Idle || (s.suspend.ready && (s.state == Hold || s.state == MotionCancel)))
           && input.hasBlock && !s.suspend.cancel
  {
    hide Holds;
    NoHolds(if input.alarm then s.(state := Alarm) else s, input.flags);
  }

  lemma HoldsStartNothing(s: Sys, flags: Flags)
    requires s.state != Cycle
    ensures Holds(s, flags).0.state != Cycle
  {
  }

  /** A cycle that stops without a hold, or any motion cut short by a soft limit, leaves an idle machine, not suspended,
      with spindle and coolant as they were. */
  lemma CycleEnds(s: Sys, input: Input)
    requires input.flags.cycleStop && !input.alarm && !input.flags.reset && !input.flags.cycleStart && !HoldFlags(input.flags)
    requires s.state in {Cycle, Homing, MotionCancel} || input.softLimit
    ensures Pass(s, input).sys == s.(state := Idle, suspend := DISABLED)
  {
    hide Holds;
    NoHolds(s, input.flags);
  }

  /** Hold flags do nothing in an alarm or in check mode. */
  lemma HoldsIgnored(s: Sys, input: Input)
    requires (s.state == Alarm || s.state == CheckMode || input.alarm) && !input.flags.reset && !input.critical && !input.flags.cycleStop
    ensures Pass(s, input) == Outcome(if input.alarm then s.(state := Alarm) else s, false, false)
  {
  }

  /** In a cycle, any hold flag has the executing block replanned for deceleration and suspends the main program. */
  lemma HoldFromCycle(s: Sys, input: Input)
    requires s.state == Cycle && HoldFlags(input.flags) && !input.alarm && !input.flags.reset && !input.flags.cycleStop
    ensures var o := Pass(s, input);
      && o.replanned && o.sys.suspend.hold && !o.sys.suspend.ready
      && o.sys.state == (if input.flags.safetyDoor then SafetyDoor else if input.flags.feedHold then Hold else MotionCancel)
      && o.sys.suspend.energize == input.flags.safetyDoor && o.sys.suspend.cancel == input.flags.motionCancel
  {
    hide Holds;
    CycleHolds(s, input.flags);
  }

  /** A door opened on an idle machine powers spindle and coolant down in the same pass, as the hold is complete at
      once; the machine then waits, or stays locked while the door is open. */
  lemma IdleDoor(s: Sys, input: Input)
    requires s.state == Idle && input.flags.safetyDoor && !input.alarm && !input.flags.reset && !input.softLimit
    ensures var o := Pass(s, input);
      && !o.sys.spindle && !o.sys.coolant && o.sys.suspend == Suspend(false, true, true, input.flags.motionCancel)
      && o.sys.state == (if input.doorAjar then SafetyDoor else Hold) && !o.replanned && !o.abort && SameModal(s, o.sys)
  {
    hide Holds;
    IdleHolds(s, input.flags);
  }

  lemma IdleHolds(s: Sys, flags: Flags)
    requires s.state == Idle && HoldFlags(flags)
    ensures var (b, forced) := Holds(s, flags);
      && b.suspend == Suspend(false, true, flags.safetyDoor, flags.motionCancel) && forced == flags.safetyDoor
      && b.state == (if flags.safetyDoor then SafetyDoor else if flags.feedHold then Hold else Idle)
      && b.spindle == s.spindle && b.coolant == s.coolant && SameModal(s, b)
  {
  }

  /** A feed hold on an idle machine is complete at once: spindle and coolant run on, and the next cycle start resumes
      what there is. */
  lemma IdleHold(s: Sys, input: Input, next: Input)
    requires s.state == Idle && input.flags.feedHold && !input.flags.safetyDoor && !input.alarm && !input.flags.reset && !input.flags.cycleStop
    requires next.flags.cycleStart && !HoldFlags(next.flags) && !next.alarm && !next.flags.reset && !next.flags.cycleStop
    ensures var h := Pass(s, input).sys;
      && h.state == Hold && h.suspend.ready && h.spindle == s.spindle && h.coolant == s.coolant
      && Pass(h, next).sys == s.(state := if next.hasBlock && !input.flags.motionCancel then Cycle else Idle, suspend := DISABLED)
  {
    hide Holds;
    IdleHolds(s, input.flags);
    NoHolds(Pass(s, input).sys, next.flags);
  }

  lemma NoHolds(s: Sys, flags: Flags)
    requires !HoldFlags(flags)
    ensures Holds(s, flags) == (s, false)
  {
  }

  lemma CycleHolds(s: Sys, flags: Flags)
    requires s.state == Cycle && HoldFlags(flags)
    ensures var (b, forced) := Holds(s, flags);
      && b.suspend == Suspend(true, false, flags.safetyDoor, flags.motionCancel) && !forced
      && b.state == if flags.safetyDoor then SafetyDoor else if flags.feedHold then Hold else MotionCancel
  {
  }
}
