/** Executing a parsed g-code block: the error checks and conversions made before anything is changed, and
    the order in which the interpreter's state is then updated. */
module Gcode {
  import opened Numbers
  import opened GcodeWords
  import opened GcodeLine
  import opened Reals
  import A = Arc

  const AXES: nat := 3
  const MM_PER_INCH: real := 25.4
  const MAX_LINE_NUMBER: real := 9999999.0
  const N_COORDINATE_SYSTEM: nat := 6
  const SETTING_INDEX_G28: nat := 6
  const SETTING_INDEX_G30: nat := 7
  const TOOL_LENGTH_OFFSET_AXIS: nat := 2

  const ZERO: Vec := [0.0, 0.0, 0.0]

  /** The coordinate records; one that does not read back is None. */
  type Store = s: seq<Option<Vec>> | |s| == 8 witness seq(8, _ => None)

  function Read(store: Store, select: nat): Option<Vec> {
    if select < 8 then store[select] else None
  }

  // Codes within the groups.
  const DWELL := 1
  const SET_COORDINATE_DATA := 2
  const GO_HOME_0 := 3
  const SET_HOME_0 := 4
  const GO_HOME_1 := 5
  const SET_HOME_1 := 6
  const ABSOLUTE_OVERRIDE := 7
  const SET_COORDINATE_OFFSET := 8
  const RESET_COORDINATE_OFFSET := 9
  const SEEK := 0
  const LINEAR := 1
  const CW_ARC := 2
  const CCW_ARC := 3
  const PROBE_TOWARD := 4
  const PROBE_TOWARD_NO_ERROR := 5
  const PROBE_AWAY := 6
  const PROBE_AWAY_NO_ERROR := 7
  const MOTION_NONE := 8
  const INVERSE_TIME := 1
  const INCHES := 1
  const ABSOLUTE := 0
  const TOOL_LENGTH_DYNAMIC := 1
  const COMPLETED := 2

  /** gc_state: the modes (the entry of group G0 stays zero) and the values that outlive a block. */
  datatype GcState = GcState(modes: Modes, feedRate: real, spindleSpeed: real, lineNumber: real,
                             position: Vec, coordSystem: Vec, coordOffset: Vec, toolLengthOffset: real)

  datatype Fault =
    | BadWord(error: Error)
    | InvalidLineNumber
    | UndefinedFeedRate
    | ValueWordMissing
    | G43DynamicAxisError
    | SettingReadFail(select: nat)
    | NoAxisWords
    | UnsupportedCoordSys
    | UnsupportedValue
    | G53InvalidMotionMode
    | AxisWordsExist
    | NoAxisWordsInPlane
    | InvalidTarget
    | ArcRadiusError
    | NoOffsetsInPlane
    | UnusedWords

  datatype Check<T> = Ok(value: T) | Fail(fault: Fault)

  /** What the checks hand to execution. */
  datatype Plan = Plan(axisCommand: AxisCommand, feed: real, speed: real, target: Vec,
                       coordinateData: Vec, parameterData: Vec, coordSelect: nat)

  /** The hypotenuse and the square root used for arcs, where a probe stops, and whether the machine only checks. */
  datatype Env = Env(hypot: (real, real) -> real, root: real -> real, probed: Vec, checkMode: bool)

  /** What the interpreter asks of motion control. An arc is given its plane, the axis across it, and the way to its
      centre in the plane, which an arc given by its radius has only if its chord is not zero. */
  datatype Motion =
    | Rapid(target: Vec)
    | Straight(target: Vec, feed: real, inverseTime: bool)
    | ArcMove(target: Vec, centre: Option<(real, real)>, radius: real, a0: nat, a1: nat, linear: nat, clockwise: bool, feed: real, inverseTime: bool)
    | Probe(target: Vec, feed: real, inverseTime: bool, away: bool, noError: bool)

  // ---- The block's words ----

  predicate HasWord(b: Block, k: nat) {
    k in b.valueWords
  }

  predicate HasAxis(b: Block, i: nat) {
    HasWord(b, WORD_X + i)
  }

  predicate AnyAxis(b: Block) {
    HasAxis(b, 0) || HasAxis(b, 1) || HasAxis(b, 2)
  }

  /** Axis words without an axis command mean a motion in the current mode. */
  function ImpliedAxisCommand(b: Block): AxisCommand {
    if AnyAxis(b) && b.axisCommand == NoAxisCommand then MotionMode else b.axisCommand
  }

  /** An axis word in millimetres. */
  function Mm(b: Block, i: nat): real
    requires i < AXES
  {
    if b.modes[MODAL_GROUP_G6] == INCHES && HasAxis(b, i) then b.values[WORD_X + i] * MM_PER_INCH else b.values[WORD_X + i]
  }

  function InMm(b: Block): Vec {
    seq(AXES, i requires 0 <= i < AXES => Mm(b, i))
  }

  function ToolLength(gc: GcState, i: nat): real {
    if i == TOOL_LENGTH_OFFSET_AXIS then gc.toolLengthOffset else 0.0
  }

  // ---- STEP 3: checks and conversions ----

  /** In inverse time every motion command needs its own F, rapid ones included: the test meant to spare
      them is always true. Out of inverse time, F is kept as given, even in inches. */
  function Feed(gc: GcState, b: Block): Check<real> {
    if b.modes[MODAL_GROUP_G5] == INVERSE_TIME then
      if ImpliedAxisCommand(b) == MotionMode && !HasWord(b, WORD_F) then Fail(UndefinedFeedRate) else Ok(b.values[WORD_F])
    else if gc.modes[MODAL_GROUP_G5] == INVERSE_TIME then Ok(b.values[WORD_F])
    else if !HasWord(b, WORD_F) then Ok(gc.feedRate)
    else Ok(if b.modes[MODAL_GROUP_G6] == INCHES then b.values[WORD_F] * MM_PER_INCH else b.values[WORD_F])
  }

  function CoordinateData(gc: GcState, store: Store, b: Block): Check<Vec> {
    var select := b.modes[MODAL_GROUP_G12];
    if MODAL_GROUP_G12 in b.commandWords && select > N_COORDINATE_SYSTEM then Fail(UnsupportedCoordSys)
    else if MODAL_GROUP_G12 in b.commandWords && gc.modes[MODAL_GROUP_G12] != select then
      if Read(store, select).Some? then Ok(Read(store, select).value) else Fail(SettingReadFail(select))
    else Ok(gc.coordSystem)
  }

  /** G10: which record, and its new contents. */
  function SetCoordinateData(gc: GcState, store: Store, b: Block): Check<(nat, Vec)> {
    if !AnyAxis(b) then Fail(NoAxisWords)
    else if !HasWord(b, WORD_P) && !HasWord(b, WORD_L) then Fail(ValueWordMissing)
    else
      var p := IntValue(b.values[WORD_P]);
      if p > N_COORDINATE_SYSTEM then Fail(UnsupportedCoordSys)
      else if b.values[WORD_L] != 20.0 && (b.values[WORD_L] != 2.0 || HasWord(b, WORD_R)) then Fail(UnsupportedValue)
      else
        var select: nat := if p > 0 then p - 1 else b.modes[MODAL_GROUP_G12];
        if Read(store, select).None? then Fail(SettingReadFail(select))
        else Ok((select, NewCoordinateData(gc, b, Read(store, select).value)))
  }

  /** L20 makes the current position read as programmed; L2 takes the programmed values. */
  function NewCoordinateData(gc: GcState, b: Block, was: Vec): Vec {
    seq(AXES, i requires 0 <= i < AXES =>
      if !HasAxis(b, i) then was[i]
      else if b.values[WORD_L] == 20.0 then gc.position[i] - gc.coordOffset[i] - Mm(b, i) - ToolLength(gc, i)
      else Mm(b, i))
  }

  /** G92: the offset that makes the current position read as programmed. */
  function OffsetFor(gc: GcState, b: Block, coordinateData: Vec): Vec {
    seq(AXES, i requires 0 <= i < AXES =>
      if HasAxis(b, i) then gc.position[i] - coordinateData[i] - Mm(b, i) - ToolLength(gc, i) else gc.coordOffset[i])
  }

  /** The traditional target position, in machine coordinates. */
  function Target(gc: GcState, b: Block, coordinateData: Vec): Vec {
    if ImpliedAxisCommand(b) == ToolLengthOffset || !AnyAxis(b) then InMm(b)
    else
      seq(AXES, i requires 0 <= i < AXES =>
        if !HasAxis(b, i) then gc.position[i]
        else if b.modes[MODAL_GROUP_G0] == ABSOLUTE_OVERRIDE then Mm(b, i)
        else if b.modes[MODAL_GROUP_G3] == ABSOLUTE then Mm(b, i) + coordinateData[i] + gc.coordOffset[i] + ToolLength(gc, i)
        else Mm(b, i) + gc.position[i])
  }

  /** The non-modal actions: the axis command left, the target, and G10's or G28's data. */
  function NonModalAction(gc: GcState, store: Store, b: Block, coordinateData: Vec): Check<(AxisCommand, Vec, nat, Vec)> {
    var axis, action := ImpliedAxisCommand(b), b.modes[MODAL_GROUP_G0];
    if action == SET_COORDINATE_DATA then
      match SetCoordinateData(gc, store, b)
      case Fail(e) => Fail(e)
      case Ok((select, data)) => Ok((axis, InMm(b), select, data))
    else if action == SET_COORDINATE_OFFSET then
      if !AnyAxis(b) then Fail(NoAxisWords) else Ok((axis, OffsetFor(gc, b, coordinateData), 0, ZERO))
    else
      var target := Target(gc, b, coordinateData);
      if action in {GO_HOME_0, GO_HOME_1} then
        var select: nat := if action == GO_HOME_0 then SETTING_INDEX_G28 else SETTING_INDEX_G30;
        if store[select].None? then Fail(SettingReadFail(select))
        else Ok((if AnyAxis(b) then axis else NoAxisCommand, target, select, store[select].value))
      else if action == ABSOLUTE_OVERRIDE && b.modes[MODAL_GROUP_G1] !in {SEEK, LINEAR} then Fail(G53InvalidMotionMode)
      else Ok((axis, target, 0, ZERO))
  }

  function PlaneAxes(b: Block): (nat, nat) {
    var plane := b.modes[MODAL_GROUP_G2];
    if plane == 0 then (0, 1) else if plane == 1 then (2, 0) else (1, 2)
  }

  function LinearAxis(b: Block): nat {
    var plane := b.modes[MODAL_GROUP_G2];
    if plane == 0 then 2 else if plane == 1 then 1 else 0
  }

  /** A value word in millimetres. */
  function ValueMm(b: Block, k: nat): real
    requires k < WORDS
  {
    if b.modes[MODAL_GROUP_G6] == INCHES && HasWord(b, k) then b.values[k] * MM_PER_INCH else b.values[k]
  }

  /** The way from the present position to an arc's centre, in the plane, and its radius. */
  function ArcCentre(position: Vec, b: Block, target: Vec, env: Env): (Option<(real, real)>, real) {
    var (a0, a1) := PlaneAxes(b);
    if HasWord(b, WORD_R) then
      var x, y, r := target[a0] - position[a0], target[a1] - position[a1], ValueMm(b, WORD_R);
      var h, d := env.root(A.OffSquared(x, y, r)), env.hypot(x, y);
      if d == 0.0 then (None, RealAbs(r))
      else
        var q := A.OffChord(r, h, d, b.modes[MODAL_GROUP_G1] == CW_ARC);
        (Some((A.CentreX(x, y, q), A.CentreY(x, y, q))), RealAbs(r))
    else
      var i, j := ValueMm(b, WORD_I + a0), ValueMm(b, WORD_I + a1);
      (Some((i, j)), env.hypot(i, j))
  }

  /** An arc's checks; the words it uses. */
  function ArcCheck(gc: GcState, b: Block, target: Vec, env: Env): Check<set<nat>> {
    var (a0, a1) := PlaneAxes(b);
    if !AnyAxis(b) then Fail(NoAxisWords)
    else if !HasAxis(b, a0) && !HasAxis(b, a1) then Fail(NoAxisWordsInPlane)
    else
      var x, y := target[a0] - gc.position[a0], target[a1] - gc.position[a1];
      if HasWord(b, WORD_R) then
        var r := ValueMm(b, WORD_R);
        if gc.position == target then Fail(InvalidTarget)
        else if A.OffSquared(x, y, r) < 0.0 then Fail(ArcRadiusError)
        else Ok({WORD_R})
      else if !HasWord(b, WORD_I + a0) && !HasWord(b, WORD_I + a1) then Fail(NoOffsetsInPlane)
      else
        var i, j := ValueMm(b, WORD_I + a0), ValueMm(b, WORD_I + a1);
        var r := env.hypot(i, j);
        var delta := RealAbs(env.hypot(x - i, y - j) - r);
        if delta > 0.005 && (delta > 0.5 || delta > 0.001 * r) then Fail(InvalidTarget) else Ok({WORD_I, WORD_J, WORD_K})
  }

  /** The motion modes: the axis command left, and the words used. */
  function MotionCheck(gc: GcState, b: Block, axis: AxisCommand, target: Vec, feed: real, env: Env): Check<(AxisCommand, set<nat>)> {
    var motion := b.modes[MODAL_GROUP_G1];
    if motion == MOTION_NONE then
      if AnyAxis(b) && axis != NonModal then Fail(AxisWordsExist) else Ok((axis, {}))
    else if axis != MotionMode then Ok((axis, {}))
    else if motion == SEEK then Ok((if AnyAxis(b) then axis else NoAxisCommand, {}))
    else if feed == 0.0 then Fail(UndefinedFeedRate)
    else if motion == LINEAR then Ok((if AnyAxis(b) then axis else NoAxisCommand, {}))
    else if motion in {CW_ARC, CCW_ARC} then
      match ArcCheck(gc, b, target, env)
      case Fail(e) => Fail(e)
      case Ok(used) => Ok((axis, used))
    else if !AnyAxis(b) then Fail(NoAxisWords)
    else if gc.position == target then Fail(InvalidTarget)
    else Ok((axis, {}))
  }

  /** The words the block's commands make use of. */
  function UsedWords(b: Block, axis: AxisCommand, arc: set<nat>): set<nat> {
    {WORD_N, WORD_F, WORD_S, WORD_T} + arc
    + (if b.modes[MODAL_GROUP_G0] == DWELL then {WORD_P} else {})
    + (if b.modes[MODAL_GROUP_G0] == SET_COORDINATE_DATA then {WORD_L, WORD_P} else {})
    + (if axis != NoAxisCommand then {WORD_X, WORD_Y, WORD_Z} else {})
  }

  predicate DynamicAxisError(b: Block) {
    ImpliedAxisCommand(b) == ToolLengthOffset && b.modes[MODAL_GROUP_G8] == TOOL_LENGTH_DYNAMIC
    && (HasAxis(b, 0) || HasAxis(b, 1) || !HasAxis(b, TOOL_LENGTH_OFFSET_AXIS))
  }

  /** All of STEP 3, in order. */
  function PlanBlock(gc: GcState, store: Store, b: Block, env: Env): Check<Plan> {
    if HasWord(b, WORD_N) && b.values[WORD_N] > MAX_LINE_NUMBER then Fail(InvalidLineNumber)
    else match Feed(gc, b)
      case Fail(e) => Fail(e)
      case Ok(feed) =>
        var speed := if HasWord(b, WORD_S) then b.values[WORD_S] else gc.spindleSpeed;
        if b.modes[MODAL_GROUP_G0] == DWELL && !HasWord(b, WORD_P) then Fail(ValueWordMissing)
        else if DynamicAxisError(b) then Fail(G43DynamicAxisError)
        else match CoordinateData(gc, store, b)
          case Fail(e) => Fail(e)
          case Ok(coordinateData) =>
            match NonModalAction(gc, store, b, coordinateData)
            case Fail(e) => Fail(e)
            case Ok((axis, target, select, data)) =>
              match MotionCheck(gc, b, axis, target, feed, env)
              case Fail(e) => Fail(e)
              case Ok((command, arc)) =>
                if b.valueWords <= UsedWords(b, command, arc) then
                  Ok(Plan(command, feed, speed, target, coordinateData, data, select))
                else Fail(UnusedWords)
  }

  // ---- STEP 4: execution ----

  function NewToolLength(was: real, b: Block, plan: Plan): real {
    if plan.axisCommand != ToolLengthOffset then was
    else if b.modes[MODAL_GROUP_G8] == TOOL_LENGTH_DYNAMIC then plan.target[TOOL_LENGTH_OFFSET_AXIS]
    else 0.0
  }

  /** The coordinate system after a selection and after G10. */
  function NewCoordSystem(select: nat, was: Vec, b: Block, plan: Plan): Vec {
    if b.modes[MODAL_GROUP_G0] == SET_COORDINATE_DATA && b.modes[MODAL_GROUP_G12] == plan.coordSelect then plan.parameterData
    else if select != b.modes[MODAL_GROUP_G12] then plan.coordinateData
    else was
  }

  function NewCoordOffset(was: Vec, b: Block, plan: Plan): Vec {
    if b.modes[MODAL_GROUP_G0] == SET_COORDINATE_OFFSET then plan.target
    else if b.modes[MODAL_GROUP_G0] == RESET_COORDINATE_OFFSET then ZERO
    else was
  }

  /** Where the interpreter takes the tool to be after the block. */
  function Moved(position: Vec, b: Block, plan: Plan, env: Env): Vec {
    var motion := b.modes[MODAL_GROUP_G1];
    if motion != MOTION_NONE && plan.axisCommand == MotionMode then
      if motion in {SEEK, LINEAR, CW_ARC, CCW_ARC} then plan.target else env.probed
    else if b.modes[MODAL_GROUP_G0] in {GO_HOME_0, GO_HOME_1} then plan.parameterData
    else position
  }

  /** A move home goes by way of the programmed point, if there is one. */
  function HomeMotions(b: Block, plan: Plan): seq<Motion> {
    if b.modes[MODAL_GROUP_G0] !in {GO_HOME_0, GO_HOME_1} then []
    else (if plan.axisCommand != NoAxisCommand then [Rapid(plan.target)] else []) + [Rapid(plan.parameterData)]
  }

  /** The move of the motion mode, if the axis words are for it. */
  function ModeMotions(position: Vec, b: Block, plan: Plan, env: Env): seq<Motion> {
    var motion, inverse := b.modes[MODAL_GROUP_G1], b.modes[MODAL_GROUP_G5] == INVERSE_TIME;
    if motion == MOTION_NONE || plan.axisCommand != MotionMode then []
    else if motion == SEEK then [Rapid(plan.target)]
    else if motion == LINEAR then [Straight(plan.target, plan.feed, inverse)]
    else if motion in {CW_ARC, CCW_ARC} then
      var ((a0, a1), (centre, radius)) := (PlaneAxes(b), ArcCentre(position, b, plan.target, env));
      [ArcMove(plan.target, centre, radius, a0, a1, LinearAxis(b), motion == CW_ARC, plan.feed, inverse)]
    else [Probe(plan.target, plan.feed, inverse, motion in {PROBE_AWAY, PROBE_AWAY_NO_ERROR}, motion in {PROBE_TOWARD_NO_ERROR, PROBE_AWAY_NO_ERROR})]
  }

  function Motions(position: Vec, b: Block, plan: Plan, env: Env): seq<Motion> {
    HomeMotions(b, plan) + ModeMotions(position, b, plan, env)
  }

  /** A record written. */
  function Record(store: Store, select: nat, data: Vec): Store
    requires select < 8
  {
    store[select := Some(data)]
  }

  function Recorded(position: Vec, store: Store, b: Block, plan: Plan): Store {
    var action := b.modes[MODAL_GROUP_G0];
    if action == SET_COORDINATE_DATA && plan.coordSelect < 8 then Record(store, plan.coordSelect, plan.parameterData)
    else if action == SET_HOME_0 then Record(store, SETTING_INDEX_G28, position)
    else if action == SET_HOME_1 then Record(store, SETTING_INDEX_G30, position)
    else store
  }

  /** The modes copied from every block. */
  function Copied(modes: Modes, from: Modes): Modes {
    modes[MODAL_GROUP_G5 := from[MODAL_GROUP_G5]][MODAL_GROUP_M7 := from[MODAL_GROUP_M7]][MODAL_GROUP_M8 := from[MODAL_GROUP_M8]]
      [MODAL_GROUP_G2 := from[MODAL_GROUP_G2]][MODAL_GROUP_G6 := from[MODAL_GROUP_G6]][MODAL_GROUP_G12 := from[MODAL_GROUP_G12]]
      [MODAL_GROUP_G3 := from[MODAL_GROUP_G3]][MODAL_GROUP_G1 := from[MODAL_GROUP_G1]]
  }

  /** Tool length only changes by its own command. */
  function BlockModes(modes: Modes, b: Block, plan: Plan): Modes {
    var copied := Copied(modes, b.modes);
    if plan.axisCommand == ToolLengthOffset then copied[MODAL_GROUP_G8 := b.modes[MODAL_GROUP_G8]] else copied
  }

  /** The modes a program end resets. */
  function ResetModes(modes: Modes): Modes {
    modes[MODAL_GROUP_G1 := LINEAR][MODAL_GROUP_G2 := 0][MODAL_GROUP_G3 := ABSOLUTE][MODAL_GROUP_G5 := 0]
      [MODAL_GROUP_G12 := 0][MODAL_GROUP_M7 := 0][MODAL_GROUP_M8 := 0]
  }

  /** The fault, if a program end cannot read its default coordinate system back, comes after everything
      else has been updated, and leaves the program flow set. */
  function Execute(gc: GcState, store: Store, b: Block, plan: Plan, env: Env): (Option<Fault>, GcState, Store) {
    var after := Recorded(gc.position, store, b, plan);
    var modes := BlockModes(gc.modes, b, plan)[MODAL_GROUP_M4 := b.modes[MODAL_GROUP_M4]];
    var g := GcState(modes, plan.feed, plan.speed, b.values[WORD_N], Moved(gc.position, b, plan, env),
                     NewCoordSystem(gc.modes[MODAL_GROUP_G12], gc.coordSystem, b, plan),
                     NewCoordOffset(gc.coordOffset, b, plan), NewToolLength(gc.toolLengthOffset, b, plan));
    if modes[MODAL_GROUP_M4] != COMPLETED then (None, g.(modes := modes[MODAL_GROUP_M4 := 0]), after)
    else if env.checkMode then (None, g.(modes := ResetModes(modes)[MODAL_GROUP_M4 := 0]), after)
    else if after[0].Some? then
      (None, g.(modes := ResetModes(modes)[MODAL_GROUP_M4 := 0], coordSystem := after[0].value), after)
    else (Some(SettingReadFail(0)), g.(modes := ResetModes(modes)), after[0 := Some(ZERO)])
  }

  /** A record that does not read back is replaced by zeroes. */
  function Repaired(store: Store, fault: Fault): Store {
    if fault.SettingReadFail? && fault.select < 8 then store[fault.select := Some(ZERO)] else store
  }

  function StartBlock(gc: GcState): Block {
    Block(gc.modes, seq(WORDS, _ => 0.0), NoAxisCommand, {}, {})
  }

  /** One line: its fault if any, the state and the coordinate records it leaves. */
  function RunLine(gc: GcState, store: Store, line: string, env: Env): (Option<Fault>, GcState, Store) {
    match ParseFrom(line, 0, StartBlock(gc))
    case Rejected(e) => (Some(BadWord(e)), gc, store)
    case Parsed(b) =>
      match PlanBlock(gc, store, b, env)
      case Fail(e) => (Some(e), gc, Repaired(store, e))
      case Ok(plan) => Execute(gc, store, b, plan, env)
  }

  /** What a line asks of motion control. */
  function LineMotions(gc: GcState, store: Store, line: string, env: Env): seq<Motion> {
    match ParseFrom(line, 0, StartBlock(gc))
    case Rejected(_) => []
    case Parsed(b) =>
      match PlanBlock(gc, store, b, env)
      case Fail(_) => []
      case Ok(plan) => Motions(gc.position, b, plan, env)
  }

  /** The interpreter, whose state the execution step updates field by field. */
  class Interpreter {
    var modes: Modes
    var feedRate: real
    var spindleSpeed: real
    var lineNumber: real
    var position: Vec
    var coordSystem: Vec
    var coordOffset: Vec
    var toolLengthOffset: real
    var store: Store
    var motions: seq<Motion> // what the last line asked of motion control

    function State(): GcState
      reads this
    {
      GcState(modes, feedRate, spindleSpeed, lineNumber, position, coordSystem, coordOffset, toolLengthOffset)
    }

    /** Steps 14 to 19: tool length, coordinate system, and the offsets the non-modal actions set. */
    method UpdateOffsets(b: Block, plan: Plan)
      modifies this`modes, this`coordSystem, this`coordOffset, this`toolLengthOffset, this`store
      ensures modes == old(modes)[MODAL_GROUP_G12 := b.modes[MODAL_GROUP_G12]]
                       [MODAL_GROUP_G8 := if plan.axisCommand == ToolLengthOffset then b.modes[MODAL_GROUP_G8] else old(modes)[MODAL_GROUP_G8]]
      ensures coordSystem == NewCoordSystem(old(modes)[MODAL_GROUP_G12], old(coordSystem), b, plan)
      ensures coordOffset == NewCoordOffset(old(coordOffset), b, plan)
      ensures toolLengthOffset == NewToolLength(old(toolLengthOffset), b, plan)
      ensures store == Recorded(position, old(store), b, plan)
    {
      if plan.axisCommand == ToolLengthOffset {
        modes := modes[MODAL_GROUP_G8 := b.modes[MODAL_GROUP_G8]];
        if modes[MODAL_GROUP_G8] == TOOL_LENGTH_DYNAMIC {
          toolLengthOffset := plan.target[TOOL_LENGTH_OFFSET_AXIS];
        } else {
          toolLengthOffset := 0.0;
        }
      }
      if modes[MODAL_GROUP_G12] != b.modes[MODAL_GROUP_G12] {
        modes := modes[MODAL_GROUP_G12 := b.modes[MODAL_GROUP_G12]];
        coordSystem := plan.coordinateData;
      }
      hide Recorded, NewCoordOffset;
      NonModalActions(b, plan);
    }

    method NonModalActions(b: Block, plan: Plan)
      modifies this`coordSystem, this`coordOffset, this`store
      ensures coordSystem == if b.modes[MODAL_GROUP_G0] == SET_COORDINATE_DATA && modes[MODAL_GROUP_G12] == plan.coordSelect
                             then plan.parameterData else old(coordSystem)
      ensures coordOffset == NewCoordOffset(old(coordOffset), b, plan)
      ensures store == Recorded(position, old(store), b, plan)
    {
      var action := b.modes[MODAL_GROUP_G0];
      if action == SET_COORDINATE_DATA {
        if plan.coordSelect < 8 {
          store := Record(store, plan.coordSelect, plan.parameterData);
        }
        if modes[MODAL_GROUP_G12] == plan.coordSelect {
          coordSystem := plan.parameterData;
        }
      } else if action == SET_HOME_0 {
        store := Record(store, SETTING_INDEX_G28, position);
      } else if action == SET_HOME_1 {
        store := Record(store, SETTING_INDEX_G30, position);
      } else if action == SET_COORDINATE_OFFSET {
        coordOffset := plan.target;
      } else if action == RESET_COORDINATE_OFFSET {
        coordOffset := ZERO;
      }
    }

    /** The end of a program. */
    method CompleteProgram(env: Env) returns (fault: Option<Fault>)
      modifies this
      ensures var was := old(State());
        var reset := was.(modes := ResetModes(was.modes));
        motions == old(motions) &&
        if env.checkMode then fault == None && State() == reset && store == old(store)
        else if old(store)[0].Some? then fault == None && State() == reset.(coordSystem := old(store)[0].value) && store == old(store)
        else fault == Some(SettingReadFail(0)) && State() == reset && store == old(store)[0 := Some(ZERO)]
    {
      modes := modes[MODAL_GROUP_G1 := LINEAR][MODAL_GROUP_G2 := 0][MODAL_GROUP_G3 := ABSOLUTE][MODAL_GROUP_G5 := 0]
        [MODAL_GROUP_G12 := 0][MODAL_GROUP_M7 := 0][MODAL_GROUP_M8 := 0];
      fault := None;
      if !env.checkMode {
        if store[0].None? {
          store := store[0 := Some(ZERO)];
          return Some(SettingReadFail(0));
        }
        coordSystem := store[0].value;
      }
    }

    /** Everything up to the program flow. */
    method ExecuteModes(b: Block, plan: Plan, env: Env)
      modifies this
      ensures modes == BlockModes(old(modes), b, plan)
      ensures feedRate == plan.feed && spindleSpeed == plan.speed && lineNumber == b.values[WORD_N]
      ensures position == Moved(old(position), b, plan, env)
      ensures coordSystem == NewCoordSystem(old(modes)[MODAL_GROUP_G12], old(coordSystem), b, plan)
      ensures coordOffset == NewCoordOffset(old(coordOffset), b, plan)
      ensures toolLengthOffset == NewToolLength(old(toolLengthOffset), b, plan)
      ensures store == Recorded(old(position), old(store), b, plan)
      ensures motions == Motions(old(position), b, plan, env)
    {
      hide NewCoordSystem, NewCoordOffset, NewToolLength, Recorded, Moved, HomeMotions, ModeMotions;
      lineNumber := b.values[WORD_N];
      modes := modes[MODAL_GROUP_G5 := b.modes[MODAL_GROUP_G5]];
      feedRate := plan.feed;
      spindleSpeed := plan.speed;
      modes := modes[MODAL_GROUP_M7 := b.modes[MODAL_GROUP_M7]];
      modes := modes[MODAL_GROUP_M8 := b.modes[MODAL_GROUP_M8]];
      modes := modes[MODAL_GROUP_G2 := b.modes[MODAL_GROUP_G2]];
      modes := modes[MODAL_GROUP_G6 := b.modes[MODAL_GROUP_G6]];
      UpdateOffsets(b, plan);
      ExecuteMotion(b, plan, env);
    }

    method ExecuteMotion(b: Block, plan: Plan, env: Env)
      modifies this`modes, this`position, this`motions
      ensures motions == Motions(old(position), b, plan, env)
      ensures modes == old(modes)[MODAL_GROUP_G3 := b.modes[MODAL_GROUP_G3]][MODAL_GROUP_G1 := b.modes[MODAL_GROUP_G1]]
      ensures position == Moved(old(position), b, plan, env)
    {
      hide ArcCentre, PlaneAxes, LinearAxis;
      motions := [];
      var (centre, radius) := ArcCentre(position, b, plan.target, env);
      modes := modes[MODAL_GROUP_G3 := b.modes[MODAL_GROUP_G3]];
      if b.modes[MODAL_GROUP_G0] in {GO_HOME_0, GO_HOME_1} {
        if plan.axisCommand != NoAxisCommand {
          motions := [Rapid(plan.target)];
        }
        motions := motions + [Rapid(plan.parameterData)];
        position := plan.parameterData;
      }
      modes := modes[MODAL_GROUP_G1 := b.modes[MODAL_GROUP_G1]];
      if modes[MODAL_GROUP_G1] != MOTION_NONE && plan.axisCommand == MotionMode {
        var (a0, a1) := PlaneAxes(b);
        var motion, inverse := modes[MODAL_GROUP_G1], b.modes[MODAL_GROUP_G5] == INVERSE_TIME;
        if motion == SEEK {
          motions := motions + [Rapid(plan.target)];
        } else if motion == LINEAR {
          motions := motions + [Straight(plan.target, plan.feed, inverse)];
        } else if motion in {CW_ARC, CCW_ARC} {
          motions := motions + [ArcMove(plan.target, centre, radius, a0, a1, LinearAxis(b), motion == CW_ARC, plan.feed, inverse)];
        } else {
          var away, noError := motion in {PROBE_AWAY, PROBE_AWAY_NO_ERROR}, motion in {PROBE_TOWARD_NO_ERROR, PROBE_AWAY_NO_ERROR};
          motions := motions + [Probe(plan.target, plan.feed, inverse, away, noError)];
        }
        position := if modes[MODAL_GROUP_G1] in {SEEK, LINEAR, CW_ARC, CCW_ARC} then plan.target else env.probed;
      }
    }

    method ExecuteBlock(b: Block, plan: Plan, env: Env) returns (fault: Option<Fault>)
      modifies this
      ensures (fault, State(), store) == Execute(old(State()), old(store), b, plan, env)
      ensures motions == Motions(old(position), b, plan, env)
    {
      hide NewCoordSystem, NewCoordOffset, NewToolLength, Recorded, Moved, BlockModes, ResetModes, Motions;
      ExecuteModes(b, plan, env);
      modes := modes[MODAL_GROUP_M4 := b.modes[MODAL_GROUP_M4]];
      fault := None;
      if modes[MODAL_GROUP_M4] == COMPLETED {
        fault := CompleteProgram(env);
        if fault.Some? {
          return;
        }
      }
      modes := modes[MODAL_GROUP_M4 := 0];
    }

    method GcExecuteLine(line: string, env: Env) returns (fault: Option<Fault>)
      modifies this
      ensures (fault, State(), store) == RunLine(old(State()), old(store), line, env)
      ensures motions == LineMotions(old(State()), old(store), line, env)
    {
      motions := [];
      var p := ImportLine(line, StartBlock(State()));
      if p.Rejected? {
        return Some(BadWord(p.error));
      }
      var checked := PlanBlock(State(), store, p.block, env);
      if checked.Fail? {
        store := Repaired(store, checked.fault);
        return Some(checked.fault);
      }
      fault := ExecuteBlock(p.block, checked.value, env);
    }
  }

  // ---- Properties of whole lines ----

  /** The line ends a program whose default coordinate system does not read back once the line's own records
      are written. */
  predicate EndsWithoutDefault(gc: GcState, store: Store, line: string, env: Env) {
    match ParseFrom(line, 0, StartBlock(gc))
    case Rejected(_) => false
    case Parsed(b) =>
      match PlanBlock(gc, store, b, env)
      case Fail(_) => false
      case Ok(plan) => b.modes[MODAL_GROUP_M4] == COMPLETED && !env.checkMode && Recorded(gc.position, store, b, plan)[0].None?
  }

  /** A line at fault leaves the interpreter's state as it was, except exactly one that ends a program without
      its default coordinate system: that one is executed first, and leaves the program flow set, so that unless
      it was set already the state has changed. */
  lemma FaultKeepsState(gc: GcState, store: Store, line: string, env: Env)
    ensures var (fault, g, s) := RunLine(gc, store, line, env);
      && (fault.Some? && !EndsWithoutDefault(gc, store, line, env) ==> g == gc)
      && (EndsWithoutDefault(gc, store, line, env) ==> fault == Some(SettingReadFail(0)) && g.modes[MODAL_GROUP_M4] == COMPLETED)
      && (gc.modes[MODAL_GROUP_M4] != COMPLETED ==> (fault.Some? && g != gc <==> EndsWithoutDefault(gc, store, line, env)))
  {
    hide PlanBlock, ParseFrom, Recorded, NewCoordSystem, NewCoordOffset, NewToolLength, Moved, BlockModes;
    if EndsWithoutDefault(gc, store, line, env) {
      var b := ParseFrom(line, 0, StartBlock(gc)).block;
      var g := Execute(gc, store, b, PlanBlock(gc, store, b, env).value, env).1;
      assert g.modes[MODAL_GROUP_M4] == COMPLETED;
    }
  }

  /** A line at fault leaves the records as they were, except that one it could not read has become zeroes. */
  lemma FaultKeepsRecords(gc: GcState, store: Store, line: string, env: Env)
    requires RunLine(gc, store, line, env).0.Some? && !EndsWithoutDefault(gc, store, line, env)
    ensures var (fault, g, s) := RunLine(gc, store, line, env);
      if fault.value.SettingReadFail? && fault.value.select < 8 then s == store[fault.value.select := Some(ZERO)] && store[fault.value.select].None?
      else s == store
  {
    hide ParseFrom, PlanBlock, Recorded, NewCoordSystem, NewCoordOffset, NewToolLength, Moved, BlockModes;
    if ParseFrom(line, 0, StartBlock(gc)).Parsed? {
      var b := BlockOf(gc, line);
      if PlanBlock(gc, store, b, env).Fail? {
        UnreadRecord(gc, store, b, env);
      }
    }
  }

  lemma UnreadRecord(gc: GcState, store: Store, b: Block, env: Env)
    requires PlanBlock(gc, store, b, env).Fail?
    ensures var fault := PlanBlock(gc, store, b, env).fault; fault.SettingReadFail? && fault.select < 8 ==> store[fault.select].None?
  {
    hide Target, OffsetFor, NewCoordinateData, ArcCheck, UsedWords, IntValue;
    ArcReadsNothing(gc, b, env);
  }

  lemma ArcReadsNothing(gc: GcState, b: Block, env: Env)
    ensures forall target: Vec :: ArcCheck(gc, b, target, env).Fail? ==> !ArcCheck(gc, b, target, env).fault.SettingReadFail?
  {
    hide ValueMm;
  }

  /** Running a line with its words in another order has the same effect. */
  lemma RunOrderImmaterial(gc: GcState, store: Store, texts: seq<string>, others: seq<string>, env: Env)
    requires AllWords(texts) && AllWords(others) && multiset(texts) == multiset(others)
    ensures var (fault, g, s) := RunLine(gc, store, Concat(texts), env);
      var (fault', g', s') := RunLine(gc, store, Concat(others), env);
      g == g' && s == s' && (fault == fault' || (fault.Some? && fault'.Some?))
  {
    hide PlanBlock, Execute, ParseFrom, Concat;
    LineOrderImmaterial(texts, others, StartBlock(gc));
  }

  /** G10, G28, G30 and G92 own the axis words. */
  predicate OwnsAxisWords(b: Block) {
    b.modes[MODAL_GROUP_G0] in {SET_COORDINATE_DATA, GO_HOME_0, GO_HOME_1, SET_COORDINATE_OFFSET} ==> b.axisCommand == NonModal
  }

  lemma CommandOwns(w: Word)
    requires IsCommand(w)
    ensures var c := CommandOf(w);
      (c.error.None? && c.group == MODAL_GROUP_G0 && c.mode.Some?
       && c.mode.value in {SET_COORDINATE_DATA, GO_HOME_0, GO_HOME_1, SET_COORDINATE_OFFSET})
      ==> c.axis == NonModal
  {
    hide IntValue, Mantissa;
  }

  lemma StepOwns(b: Block, w: Word)
    ensures OwnsAxisWords(b) && StepWord(b, w).Parsed? ==> OwnsAxisWords(StepWord(b, w).block)
  {
    hide CommandOf, WordBit, StoredValue;
    if IsCommand(w) {
      CommandOwns(w);
    }
  }

  lemma {:induction false} ParseOwns(line: string, i: nat, b: Block)
    requires i <= |line| && OwnsAxisWords(b) && ParseFrom(line, i, b).Parsed?
    ensures OwnsAxisWords(ParseFrom(line, i, b).block)
    decreases |line| - i
  {
    hide StepWord, OwnsAxisWords;
    if i < |line| {
      var (value, next) := ReadAt(line, i + 1).value;
      ReadAdvances(line, i + 1);
      StepOwns(b, Word(line[i], value));
      ParseOwns(line, next, StepWord(b, Word(line[i], value)).block);
    }
  }

  /** The block a line parses to. */
  function BlockOf(gc: GcState, line: string): Block
    requires ParseFrom(line, 0, StartBlock(gc)).Parsed?
  {
    ParseFrom(line, 0, StartBlock(gc)).block
  }

  /** A block that programs an absolute rapid or straight move, in the active coordinate system, on some of
      the axes another block named, to the same values. */
  predicate Reprograms(g: GcState, b: Block, c: Block) {
    && c.modes[MODAL_GROUP_G0] == 0 && c.modes[MODAL_GROUP_G1] in {SEEK, LINEAR} && c.modes[MODAL_GROUP_G3] == ABSOLUTE
    && c.modes[MODAL_GROUP_G12] == g.modes[MODAL_GROUP_G12] && c.axisCommand in {NoAxisCommand, MotionMode}
    && (forall i :: 0 <= i < AXES && HasAxis(c, i) ==> HasAxis(b, i) && Mm(c, i) == Mm(b, i))
  }

  /** Coordinate system w and the offset make the current position read as b's axis words. */
  ghost predicate ReadsAs(g: GcState, w: Vec, b: Block) {
    forall i :: 0 <= i < AXES && HasAxis(b, i) ==> Mm(b, i) + w[i] + g.coordOffset[i] + ToolLength(g, i) == g.position[i]
  }

  /** The coordinate system a block is executed in. */
  function SystemOf(gc: GcState, b: Block, plan: Plan): Vec {
    NewCoordSystem(gc.modes[MODAL_GROUP_G12], gc.coordSystem, b, plan)
  }

  /** After G92, or after G10 L20 on the active system, the current position reads as programmed. */
  lemma SettingReads(gc: GcState, store: Store, b: Block, plan: Plan, env: Env)
    requires OwnsAxisWords(b) && PlanBlock(gc, store, b, env) == Ok(plan)
    requires b.modes[MODAL_GROUP_G0] == SET_COORDINATE_OFFSET
      || (b.modes[MODAL_GROUP_G0] == SET_COORDINATE_DATA && b.values[WORD_L] == 20.0
          && plan.coordSelect == b.modes[MODAL_GROUP_G12])
    ensures var (fault, g, s) := Execute(gc, store, b, plan, env);
      && g.position == gc.position && ReadsAs(g, SystemOf(gc, b, plan), b)
      && (b.modes[MODAL_GROUP_M4] != COMPLETED ==> fault.None?)
      && g.coordSystem == (if EndsInDefault(b, s, env) && fault.None? then s[0].value else SystemOf(gc, b, plan))
  {
    hide Feed, MotionCheck, UsedWords, Recorded, Mm, BlockModes, ResetModes;
    KeepsNonModal(gc, b, plan, store, env);
  }

  /** A block that ends the program and takes up the default coordinate system from store s. */
  predicate EndsInDefault(b: Block, s: Store, env: Env) {
    b.modes[MODAL_GROUP_M4] == COMPLETED && !env.checkMode && s[0].Some?
  }

  /** The motion checks never turn another axis command into a motion. */
  lemma KeepsNonModal(gc: GcState, b: Block, plan: Plan, store: Store, env: Env)
    requires PlanBlock(gc, store, b, env) == Ok(plan) && b.axisCommand == NonModal
    ensures plan.axisCommand in {NonModal, NoAxisCommand}
  {
    hide Feed, CoordinateData, SetCoordinateData, Target, OffsetFor, ArcCheck, UsedWords, DynamicAxisError;
  }

  /** The two systems agree on the axes a block names. */
  predicate SameOn(c: Block, v: Vec, w: Vec) {
    forall i :: 0 <= i < AXES && HasAxis(c, i) ==> v[i] == w[i]
  }

  /** An absolute move to the values the current position reads as in a coordinate system goes nowhere exactly if
      the one in force is the same. */
  lemma MoveToReading(g: GcState, w: Vec, store: Store, b: Block, c: Block, plan: Plan, env: Env)
    requires ReadsAs(g, w, b) && Reprograms(g, b, c) && PlanBlock(g, store, c, env) == Ok(plan)
    ensures Moved(g.position, c, plan, env) == g.position <==> SameOn(c, g.coordSystem, w)
  {
    hide Feed, UsedWords, Mm, ArcCheck;
    if AnyAxis(c) {
      forall i | 0 <= i < AXES ensures plan.target[i] == g.position[i] + if HasAxis(c, i) then g.coordSystem[i] - w[i] else 0.0 {
        if HasAxis(c, i) {
          assert HasAxis(b, i) && Mm(c, i) == Mm(b, i);
        }
      }
      assert plan.target == g.position <==> SameOn(c, g.coordSystem, w);
    }
  }

  /** Setting the current point to some values with G92, or with G10 L20 on the active coordinate system, and
      then programming an absolute move to them, leaves the machine where it is: for every position, offsets,
      tool length, units and set of axis words, except exactly that the setting line also ends the program and
      takes up a default coordinate system that differs on the axes the move names. */
  lemma SetPointThenMove(gc: GcState, store: Store, line: string, move: string, env: Env)
    requires gc.modes[MODAL_GROUP_G0] == 0
    requires ParseFrom(line, 0, StartBlock(gc)).Parsed? && PlanBlock(gc, store, BlockOf(gc, line), env).Ok?
    requires var b := BlockOf(gc, line);
      && (b.modes[MODAL_GROUP_G0] == SET_COORDINATE_OFFSET
          || (b.modes[MODAL_GROUP_G0] == SET_COORDINATE_DATA && b.values[WORD_L] == 20.0
              && PlanBlock(gc, store, b, env).value.coordSelect == b.modes[MODAL_GROUP_G12]))
    requires var (fault, g, s) := RunLine(gc, store, line, env);
      ParseFrom(move, 0, StartBlock(g)).Parsed? && Reprograms(g, BlockOf(gc, line), BlockOf(g, move))
    ensures var (fault, g, s) := RunLine(gc, store, line, env);
      var (fault', h, s') := RunLine(g, s, move, env);
      var b := BlockOf(gc, line);
      && g.position == gc.position && (b.modes[MODAL_GROUP_M4] != COMPLETED ==> fault.None?)
      && (h.position != gc.position <==>
            && EndsInDefault(b, s, env) && fault.None? && PlanBlock(g, s, BlockOf(g, move), env).Ok?
            && !SameOn(BlockOf(g, move), s[0].value, SystemOf(gc, b, PlanBlock(gc, store, b, env).value)))
  {
    hide PlanBlock, Execute, Reprograms, ParseFrom, SystemOf, ReadsAs, SameOn;
    var b := BlockOf(gc, line);
    ParseOwns(line, 0, StartBlock(gc));
    SettingReads(gc, store, b, PlanBlock(gc, store, b, env).value, env);
    var (fault, g, s) := RunLine(gc, store, line, env);
    var c := BlockOf(g, move);
    var w := SystemOf(gc, b, PlanBlock(gc, store, b, env).value);
    if PlanBlock(g, s, c, env).Ok? {
      MoveToReading(g, w, s, b, c, PlanBlock(g, s, c, env).value, env);
      ExecuteMoves(g, s, c, PlanBlock(g, s, c, env).value, env);
    }
    SameOnItself(c, w);
  }

  lemma SameOnItself(c: Block, v: Vec)
    ensures SameOn(c, v, v)
  {
  }

  lemma ExecuteMoves(gc: GcState, store: Store, b: Block, plan: Plan, env: Env)
    ensures Execute(gc, store, b, plan, env).1.position == Moved(gc.position, b, plan, env)
  {
    hide Recorded, BlockModes, ResetModes, Moved;
  }

  /** The record of a home block. */
  function HomeRecord(b: Block): nat {
    if b.modes[MODAL_GROUP_G0] in {GO_HOME_0, SET_HOME_0} then SETTING_INDEX_G28 else SETTING_INDEX_G30
  }

  /** G28.1 or G30.1 records the position the block starts from; from any later state, over any store that still
      has the record, G28 or G30 ends there, by way of whatever intermediate point. */
  lemma HomeReturns(gc: GcState, store: Store, b: Block, plan: Plan, later: GcState, s: Store, c: Block, back: Plan, env: Env)
    requires PlanBlock(gc, store, b, env) == Ok(plan)
    requires b.modes[MODAL_GROUP_G0] in {SET_HOME_0, SET_HOME_1} && c.modes[MODAL_GROUP_G0] == b.modes[MODAL_GROUP_G0] - 1
    requires s[HomeRecord(b)] == Execute(gc, store, b, plan, env).2[HomeRecord(b)]
    requires OwnsAxisWords(c) && PlanBlock(later, s, c, env) == Ok(back)
    ensures Execute(later, s, c, back, env).1.position == gc.position
  {
    hide Feed, CoordinateData, Target, UsedWords, MotionCheck, BlockModes, ResetModes;
    KeepsNonModal(later, c, back, s, env);
    ExecuteMoves(later, s, c, back, env);
  }
}
