/** Which blocks pass the checks made before anything is changed, condition by condition, whatever the order in which
    they are made. */
module GcodeChecks {
  import opened Numbers
  import opened GcodeWords
  import opened GcodeLine
  import opened Gcode
  import opened GcodeMeaning
  import opened Reals
  import A = Arc

  predicate Named(b: Block, mode: nat) {
    b.modes[MODAL_GROUP_G0] == mode
  }

  predicate HasAnyOf(b: Block, k: nat, n: nat) {
    exists i :: k <= i < k + n && HasWord(b, i)
  }

  /** The axis words are for the motion mode. */
  predicate CommandsMotion(b: Block) {
    b.axisCommand == MotionMode || (b.axisCommand == NoAxisCommand && AnyAxis(b))
  }

  predicate DrawsArc(b: Block) {
    CommandsMotion(b) && b.modes[MODAL_GROUP_G1] in {CW_ARC, CCW_ARC}
  }

  /** The rate the block moves at. */
  function Rate(gc: GcState, b: Block): real {
    if b.modes[MODAL_GROUP_G5] == INVERSE_TIME || gc.modes[MODAL_GROUP_G5] == INVERSE_TIME then b.values[WORD_F]
    else if HasWord(b, WORD_F) then ValueMm(b, WORD_F)
    else gc.feedRate
  }

  /** The coordinate system of the block, if it exists and can be read. */
  function SystemFor(gc: GcState, store: Store, b: Block): Option<Vec> {
    var select := b.modes[MODAL_GROUP_G12];
    if MODAL_GROUP_G12 !in b.commandWords then Some(gc.coordSystem)
    else if select > N_COORDINATE_SYSTEM then None
    else if select == gc.modes[MODAL_GROUP_G12] then Some(gc.coordSystem)
    else Read(store, select)
  }

  predicate Readable(store: Store, select: nat) {
    select < 8 && store[select].Some?
  }

  /** Every word of the block is for something it does. */
  predicate WordsUsed(b: Block) {
    && (HasWord(b, WORD_R) ==> DrawsArc(b))
    && (HasAnyOf(b, WORD_I, 3) ==> DrawsArc(b) && !HasWord(b, WORD_R))
    && (HasWord(b, WORD_L) ==> Named(b, SET_COORDINATE_DATA))
    && (HasWord(b, WORD_P) ==> Named(b, SET_COORDINATE_DATA) || Named(b, DWELL))
  }

  /** Coordinates can be set: on some axes, in an existing record, by values or by the present position. */
  predicate SetsCoordinates(store: Store, b: Block) {
    var p, l := IntValue(b.values[WORD_P]), b.values[WORD_L];
    && AnyAxis(b) && (HasWord(b, WORD_P) || HasWord(b, WORD_L)) && p <= N_COORDINATE_SYSTEM
    && (l == 20.0 || (l == 2.0 && !HasWord(b, WORD_R)))
    && Readable(store, if p > 0 then p - 1 else b.modes[MODAL_GROUP_G12])
  }

  /** The block's non-modal action can be carried out. */
  predicate ActionPossible(store: Store, b: Block) {
    && (Named(b, DWELL) ==> HasWord(b, WORD_P))
    && (Named(b, SET_COORDINATE_DATA) ==> SetsCoordinates(store, b))
    && (Named(b, SET_COORDINATE_OFFSET) ==> AnyAxis(b))
    && (Named(b, GO_HOME_0) ==> Readable(store, SETTING_INDEX_G28))
    && (Named(b, GO_HOME_1) ==> Readable(store, SETTING_INDEX_G30))
    && (Named(b, ABSOLUTE_OVERRIDE) ==> b.modes[MODAL_GROUP_G1] in {SEEK, LINEAR})
  }

  /** A dynamic tool length is for its own axis alone. */
  predicate ToolLengthPossible(b: Block) {
    b.axisCommand == ToolLengthOffset && b.modes[MODAL_GROUP_G8] == TOOL_LENGTH_DYNAMIC ==> HasAxis(b, 2) && !HasAxis(b, 0) && !HasAxis(b, 1)
  }

  /** An arc given by its radius goes somewhere, and no further than across the circle; one given by its centre ends as
      far from it as it starts, to within 0.005 mm, or 0.5 mm and a thousandth of the radius. */
  predicate ArcPossible(gc: GcState, b: Block, target: Vec, env: Env) {
    var (a0, a1) := PlaneAxes(b);
    var x, y := target[a0] - gc.position[a0], target[a1] - gc.position[a1];
    && (HasAxis(b, a0) || HasAxis(b, a1))
    && if HasWord(b, WORD_R) then target != gc.position && A.OffSquared(x, y, ValueMm(b, WORD_R)) >= 0.0
       else
         var i, j := ValueMm(b, WORD_I + a0), ValueMm(b, WORD_I + a1);
         var radius := env.hypot(i, j);
         var off := RealAbs(env.hypot(x - i, y - j) - radius);
         (HasWord(b, WORD_I + a0) || HasWord(b, WORD_I + a1)) && (off <= 0.005 || (off <= 0.5 && off <= 0.001 * radius))
  }

  /** The block's motion mode can be followed from the present position to the target. */
  predicate MotionPossible(gc: GcState, b: Block, target: Vec, env: Env) {
    var motion := b.modes[MODAL_GROUP_G1];
    if motion == MOTION_NONE then AnyAxis(b) ==> b.axisCommand == NonModal
    else
      CommandsMotion(b) ==>
        && (b.modes[MODAL_GROUP_G5] == INVERSE_TIME ==> HasWord(b, WORD_F))
        && (motion != SEEK ==> Rate(gc, b) != 0.0)
        && (DrawsArc(b) ==> ArcPossible(gc, b, target, env))
        && (motion !in {SEEK, LINEAR, CW_ARC, CCW_ARC} ==> AnyAxis(b) && target != gc.position)
  }

  /** All of them. */
  predicate Possible(gc: GcState, store: Store, b: Block, env: Env) {
    && (HasWord(b, WORD_N) ==> b.values[WORD_N] <= MAX_LINE_NUMBER)
    && (CommandsMotion(b) && b.modes[MODAL_GROUP_G5] == INVERSE_TIME ==> HasWord(b, WORD_F))
    && SystemFor(gc, store, b).Some? && ActionPossible(store, b) && ToolLengthPossible(b)
    && MotionPossible(gc, b, Target(gc, b, SystemFor(gc, store, b).value), env) && WordsUsed(b)
  }

  lemma FeedExactly(gc: GcState, b: Block)
    ensures Feed(gc, b).Ok? <==> (CommandsMotion(b) && b.modes[MODAL_GROUP_G5] == INVERSE_TIME ==> HasWord(b, WORD_F))
    ensures Feed(gc, b).Ok? ==> Feed(gc, b).value == Rate(gc, b)
  {
  }

  lemma SystemExactly(gc: GcState, store: Store, b: Block)
    ensures CoordinateData(gc, store, b).Ok? <==> SystemFor(gc, store, b).Some?
    ensures CoordinateData(gc, store, b).Ok? ==> CoordinateData(gc, store, b).value == SystemFor(gc, store, b).value
  {
  }

  /** The axis command left after the non-modal action. */
  function AxisLeft(b: Block): AxisCommand {
    if !AnyAxis(b) && (Named(b, GO_HOME_0) || Named(b, GO_HOME_1)) then NoAxisCommand else ImpliedAxisCommand(b)
  }

  /** What the motion checks are given: a block that sets coordinates or offsets has no motion to check. */
  predicate Aims(gc: GcState, b: Block, w: Vec, target: Vec) {
    target == Target(gc, b, w) || b.axisCommand == NonModal
  }

  lemma ActionExactly(gc: GcState, store: Store, b: Block, w: Vec)
    requires OwnsAxisWords(b)
    ensures NonModalAction(gc, store, b, w).Ok? && (Named(b, DWELL) ==> HasWord(b, WORD_P)) <==> ActionPossible(store, b)
    ensures NonModalAction(gc, store, b, w).Ok? ==>
      NonModalAction(gc, store, b, w).value.0 == AxisLeft(b) && Aims(gc, b, w, NonModalAction(gc, store, b, w).value.1)
  {
    hide NewCoordinateData, OffsetFor, Target, IntValue;
  }

  lemma ArcExactly(gc: GcState, b: Block, target: Vec, env: Env)
    ensures ArcCheck(gc, b, target, env).Ok? <==> ArcPossible(gc, b, target, env)
    ensures ArcCheck(gc, b, target, env).Ok? ==> ArcCheck(gc, b, target, env).value == if HasWord(b, WORD_R) then {WORD_R} else {WORD_I, WORD_J, WORD_K}
  {
    hide ValueMm, A.OffSquared;
  }

  lemma MotionExactly(gc: GcState, b: Block, w: Vec, target: Vec, env: Env)
    requires OwnsAxisWords(b) && Aims(gc, b, w, target) && Feed(gc, b).Ok?
    ensures var r := MotionCheck(gc, b, AxisLeft(b), target, Rate(gc, b), env);
      && (r.Ok? <==> MotionPossible(gc, b, Target(gc, b, w), env))
      && (r.Ok? ==> r.value.1 == if !DrawsArc(b) then {} else if HasWord(b, WORD_R) then {WORD_R} else {WORD_I, WORD_J, WORD_K})
      && (r.Ok? && AnyAxis(b) ==> r.value.0 != NoAxisCommand)
  {
    hide Target, Rate, ArcPossible, ArcCheck;
    FeedExactly(gc, b);
    ArcExactly(gc, b, target, env);
    hide Feed;
  }

  lemma UsedExactly(b: Block, axis: AxisCommand)
    requires forall k :: k in b.valueWords ==> k < WORDS
    requires AnyAxis(b) ==> axis != NoAxisCommand
    ensures b.valueWords <= UsedWords(b, axis, if !DrawsArc(b) then {} else if HasWord(b, WORD_R) then {WORD_R} else {WORD_I, WORD_J, WORD_K})
      <==> WordsUsed(b)
  {
    var arc := if !DrawsArc(b) then {} else if HasWord(b, WORD_R) then {WORD_R} else {WORD_I, WORD_J, WORD_K};
    hide DrawsArc, Named;
    if WordsUsed(b) {
      forall k | k in b.valueWords ensures k in UsedWords(b, axis, arc) {
        assert HasWord(b, k);
        if k in {WORD_I, WORD_J, WORD_K} {
          assert HasAnyOf(b, WORD_I, 3);
        } else if k in {WORD_X, WORD_Y, WORD_Z} {
          assert HasAxis(b, k - WORD_X);
        }
      }
    }
    if b.valueWords <= UsedWords(b, axis, arc) && HasAnyOf(b, WORD_I, 3) {
      var k :| WORD_I <= k < WORD_I + 3 && HasWord(b, k);
      assert k in UsedWords(b, axis, arc);
    }
  }

  /** A block is executed exactly if everything it asks for is possible and every word of it is used. */
  lemma AcceptedExactly(gc: GcState, store: Store, b: Block, env: Env)
    requires OwnsAxisWords(b) && forall k :: k in b.valueWords ==> k < WORDS
    ensures PlanBlock(gc, store, b, env).Ok? <==> Possible(gc, store, b, env)
  {
    hide Feed, CoordinateData, NonModalAction, MotionCheck, UsedWords, CommandsMotion, Rate, ActionPossible, MotionPossible, WordsUsed, SystemFor, Target,
      OwnsAxisWords;
    FeedExactly(gc, b);
    SystemExactly(gc, store, b);
    ToolExactly(b);
    if Feed(gc, b).Ok? && SystemFor(gc, store, b).Some? {
      var w := SystemFor(gc, store, b).value;
      ActionExactly(gc, store, b, w);
      if NonModalAction(gc, store, b, w).Ok? {
        var (axis, target, select, data) := NonModalAction(gc, store, b, w).value;
        MotionExactly(gc, b, w, target, env);
        var r := MotionCheck(gc, b, axis, target, Rate(gc, b), env);
        if r.Ok? {
          UsedExactly(b, r.value.0);
        }
      }
    }
    DwellExactly(store, b);
  }

  lemma ToolExactly(b: Block)
    ensures DynamicAxisError(b) <==> !ToolLengthPossible(b)
  {
  }

  lemma DwellExactly(store: Store, b: Block)
    ensures ActionPossible(store, b) ==> (b.modes[MODAL_GROUP_G0] == DWELL ==> HasWord(b, WORD_P))
  {
  }

  /** And so is a line that parses; only a program end can then be at fault. */
  lemma LineExecuted(gc: GcState, store: Store, texts: seq<string>, env: Env)
    requires gc.modes[MODAL_GROUP_G0] == 0 && Parses(gc, texts)
    ensures RunLine(gc, store, Concat(texts), env).0.None? || EndsWithoutDefault(gc, store, Concat(texts), env)
      <==> Possible(gc, store, BlockOf(gc, Concat(texts)), env)
  {
    hide ParseFrom, PlanBlock, WordText, Concat, WordsOf, Possible, Recorded, Reflects, CommandOf, Moved, NewCoordSystem, NewCoordOffset, NewToolLength, BlockModes;
    BlockOwns(gc, texts);
    LineWords(gc, texts);
    AcceptedExactly(gc, store, BlockOf(gc, Concat(texts)), env);
  }
}
