/** Lines for which the interpreter departs from its own comments: one of each kind, and exactly which
    lines they are. */
module GcodeCases {
  import opened Numbers
  import opened GcodeWords
  import opened GcodeLine
  import opened Gcode
  import opened Reals

  // ---- Lines of short words ----

  function DigitValue(c: char): nat
    requires Digit(c)
  {
    c as nat - '0' as nat
  }

  /** A letter and one or two digits. */
  predicate ShortWord(t: string) {
    (|t| == 2 || |t| == 3) && Letter(t[0]) && Digit(t[1]) && (|t| == 3 ==> Digit(t[2]))
  }

  function ShortValue(t: string): real
    requires ShortWord(t)
  {
    if |t| == 2 then DigitValue(t[1]) as real else (10 * DigitValue(t[1]) + DigitValue(t[2])) as real
  }

  function ShortWordOf(t: string): Word
    requires ShortWord(t)
  {
    Word(t[0], ShortValue(t))
  }

  lemma ShortWordReads(t: string)
    requires ShortWord(t)
    ensures WordText(t) && WordOf(t) == ShortWordOf(t)
  {
    hide AcceptsAll, Fold;
    var u := t[1..];
    assert u[0..] == u && SignAt(u, 0) == 0;
    FoldEmpty(START);
    Snoc(START, [], u[0]);
    assert [] + [u[0]] == [u[0]];
    if |t| == 2 {
      assert u == [u[0]];
    } else {
      Snoc(START, [u[0]], u[1]);
      assert u == [u[0]] + [u[1]];
    }
    ScaleEnds(Fold(START, u).intval as real);
  }

  predicate Short(texts: seq<string>) {
    forall i :: 0 <= i < |texts| ==> ShortWord(texts[i])
  }

  /** A block after the words of these texts. */
  function Steps(p: Parse, texts: seq<string>): Parse
    requires Short(texts)
    decreases |texts|
  {
    if texts == [] then p else Steps(Step(p, ShortWordOf(texts[0])), texts[1..])
  }

  lemma {:induction false} ImportSteps(p: Parse, texts: seq<string>)
    requires Short(texts)
    ensures AllWords(texts) && Import(p, WordsOf(texts)) == Steps(p, texts)
    decreases |texts|
  {
    hide Step, StepWord, WordText, WordOf, ShortWordOf;
    forall i | 0 <= i < |texts| ensures WordText(texts[i]) {
      ShortWordReads(texts[i]);
    }
    if texts != [] {
      ShortWordReads(texts[0]);
      ImportCons(p, WordOf(texts[0]), WordsOf(texts[1..]));
      ImportSteps(Step(p, WordOf(texts[0])), texts[1..]);
    }
  }

  lemma ParsesAs(texts: seq<string>, b: Block)
    requires Short(texts)
    ensures ParseFrom(Concat(texts), 0, b) == Steps(Parsed(b), texts)
  {
    hide Short, ParseFrom, Concat, Import, Steps, Step;
    var line := Concat(texts);
    assert line[0..] == line;
    ImportSteps(Parsed(b), texts);
    ParseIsImport(line, 0, texts, b);
  }

  lemma StepsMore(p: Parse, t: string, texts: seq<string>)
    requires ShortWord(t) && Short(texts)
    ensures Short([t] + texts)
    ensures Steps(p, [t] + texts) == Steps(Step(p, ShortWordOf(t)), texts)
    ensures Concat([t] + texts) == t + Concat(texts)
  {
    hide Step, ShortWordOf;
    assert ([t] + texts)[1..] == texts && ([t] + texts)[0] == t;
  }

  lemma ParsesOne(t: string, b: Block)
    requires ShortWord(t)
    ensures ParseFrom(t, 0, b) == StepWord(b, ShortWordOf(t))
  {
    hide ParseFrom, StepWord, ShortWordOf;
    StepsMore(Parsed(b), t, []);
    assert [t] + [] == [t] && t + [] == t;
    ParsesAs([t], b);
  }

  lemma ParsesThree(t: string, u: string, w: string, b: Block)
    requires ShortWord(t) && ShortWord(u) && ShortWord(w)
    ensures ParseFrom(t + u + w, 0, b)
         == Step(Step(StepWord(b, ShortWordOf(t)), ShortWordOf(u)), ShortWordOf(w))
  {
    hide ParseFrom, Step, ShortWordOf;
    var p := Step(Parsed(b), ShortWordOf(t));
    StepsMore(Parsed(b), t, [u] + ([w] + []));
    StepsMore(p, u, [w] + []);
    StepsMore(Step(p, ShortWordOf(u)), w, []);
    assert t + (u + (w + [])) == t + u + w;
    ParsesAs([t] + ([u] + ([w] + [])), b);
    assert p == StepWord(b, ShortWordOf(t)) by { FirstStep(b, ShortWordOf(t)); }
  }

  lemma WholeCommand(n: nat)
    requires n < 100
    ensures CommandOf(Word('G', n as real)) == GCommand(n, 0) && CommandOf(Word('M', n as real)) == MCommand(n, 0)
  {
  }

  /** A command taken into a block that has none of its group and at most one axis command between them. */
  lemma TakesCommand(b: Block, t: string, n: nat)
    requires ShortWord(t) && t[0] == 'G' && ShortValue(t) == n as real && n < 100 && GCommand(n, 0).error.None?
    requires GCommand(n, 0).axis == NoAxisCommand || b.axisCommand == NoAxisCommand
    requires GCommand(n, 0).mode.Some? && GCommand(n, 0).group !in b.commandWords
    ensures var c := GCommand(n, 0);
      c.group < GROUPS &&
      Step(Parsed(b), ShortWordOf(t)) == Parsed(Block(b.modes[c.group := c.mode.value], b.values,
        if c.axis != NoAxisCommand then c.axis else b.axisCommand, b.commandWords + {c.group}, b.valueWords))
  {
    WholeCommand(n);
    hide GCommand;
  }

  /** A value word taken into a block that does not have it. */
  lemma TakesValue(b: Block, t: string, bit: nat)
    requires ShortWord(t) && WordBit(t[0]) == Some(bit) && bit !in b.valueWords
    ensures Step(Parsed(b), ShortWordOf(t))
         == Parsed(b.(values := b.values[bit := StoredValue(ShortWordOf(t))], valueWords := b.valueWords + {bit}))
  {
  }

  lemma FirstStep(b: Block, w: Word)
    ensures Step(Parsed(b), w) == StepWord(b, w)
  {
  }

  // ---- A program end without its default coordinate system ----

  /** M2 over an unreadable first record reports a fault and leaves the state changed. */
  lemma ProgramEndFaults(gc: GcState, store: Store, env: Env)
    requires gc.modes[MODAL_GROUP_G0] == 0 && gc.modes[MODAL_GROUP_M4] == 0 && store[0].None? && !env.checkMode
    ensures var (fault, g, s) := RunLine(gc, store, "M2", env); fault.Some? && g != gc
  {
    EndParses(StartBlock(gc));
    var c := BlockOf(gc, "M2");
    EndPlanned(gc, store, c, env);
    hide ParseFrom, PlanBlock, RunLine;
    FaultKeepsState(gc, store, "M2", env);
  }

  lemma EndParses(b: Block)
    requires b.axisCommand == NoAxisCommand && b.commandWords == {} && b.valueWords == {}
    ensures ParseFrom("M2", 0, b)
         == Parsed(b.(modes := b.modes[MODAL_GROUP_M4 := COMPLETED], commandWords := {MODAL_GROUP_M4}))
  {
    hide ParseFrom;
    ParsesOne("M2", b);
    WholeCommand(2);
  }

  lemma EndPlanned(gc: GcState, store: Store, c: Block, env: Env)
    requires c.modes == gc.modes[MODAL_GROUP_M4 := COMPLETED] && gc.modes[MODAL_GROUP_G0] == 0 && c.axisCommand == NoAxisCommand
    requires c.commandWords == {MODAL_GROUP_M4} && c.valueWords == {} && c.values[WORD_F] == 0.0
    ensures PlanBlock(gc, store, c, env).Ok?
    ensures Recorded(gc.position, store, c, PlanBlock(gc, store, c, env).value) == store
  {
  }

  /** After such a fault the next line ends the program, though it has no M2: N1, say. */
  lemma NextLineEnds(gc: GcState, store: Store, env: Env)
    requires gc.modes[MODAL_GROUP_G0] == 0 && gc.modes[MODAL_GROUP_M4] == 0 && store[0].None? && !env.checkMode
    ensures var (fault, g, s) := RunLine(gc, store, "M2", env);
      && ParseFrom("N1", 0, StartBlock(g)).Parsed? && PlanBlock(g, s, BlockOf(g, "N1"), env).Ok?
      && BlockOf(g, "N1").modes[MODAL_GROUP_M4] == COMPLETED
  {
    EndParses(StartBlock(gc));
    var c := BlockOf(gc, "M2");
    EndPlanned(gc, store, c, env);
    hide ParseFrom, PlanBlock;
    EndedState(gc, store, c, PlanBlock(gc, store, c, env).value, env);
    var (fault, g, s) := RunLine(gc, store, "M2", env);
    NumberParses(StartBlock(g));
    NumberPlanned(g, s, BlockOf(g, "N1"), env);
  }

  lemma EndedState(gc: GcState, store: Store, b: Block, plan: Plan, env: Env)
    requires b.modes[MODAL_GROUP_M4] == COMPLETED && !env.checkMode && Recorded(gc.position, store, b, plan) == store && store[0].None?
    ensures var g := Execute(gc, store, b, plan, env).1;
      g.modes[MODAL_GROUP_M4] == COMPLETED && g.modes[MODAL_GROUP_G5] == 0 && g.modes[MODAL_GROUP_G0] == gc.modes[MODAL_GROUP_G0]
  {
    hide Recorded, Moved, NewCoordSystem, NewCoordOffset, NewToolLength;
  }

  lemma NumberParses(b: Block)
    requires b.axisCommand == NoAxisCommand && b.commandWords == {} && b.valueWords == {}
    ensures ParseFrom("N1", 0, b) == Parsed(b.(values := b.values[WORD_N := 1.0], valueWords := {WORD_N}))
  {
    hide ParseFrom;
    ParsesOne("N1", b);
  }

  lemma NumberPlanned(gc: GcState, store: Store, c: Block, env: Env)
    requires c.modes == gc.modes && gc.modes[MODAL_GROUP_G0] == 0 && gc.modes[MODAL_GROUP_G5] == 0 && c.axisCommand == NoAxisCommand
    requires c.commandWords == {} && c.valueWords == {WORD_N} && c.values[WORD_N] == 1.0
    ensures PlanBlock(gc, store, c, env).Ok?
  {
  }

  // ---- Rapid moves in inverse time ----

  /** In inverse time a line with a rapid motion, or with none, is refused for want of an F word exactly if it
      has axis words or names its motion, which should need no F word. */
  lemma RapidsNeedFeed(gc: GcState, store: Store, line: string, env: Env)
    requires ParseFrom(line, 0, StartBlock(gc)).Parsed?
    requires BlockOf(gc, line).modes[MODAL_GROUP_G5] == INVERSE_TIME && BlockOf(gc, line).modes[MODAL_GROUP_G1] in {SEEK, MOTION_NONE}
    ensures var b := BlockOf(gc, line);
      RunLine(gc, store, line, env).0 == Some(UndefinedFeedRate) <==>
        (ImpliedAxisCommand(b) == MotionMode && !HasWord(b, WORD_F) && (HasWord(b, WORD_N) ==> b.values[WORD_N] <= MAX_LINE_NUMBER))
  {
    hide ParseFrom, Execute, Target, OffsetFor, NewCoordinateData, ArcCheck, UsedWords;
    var b := BlockOf(gc, line);
    if PlanBlock(gc, store, b, env).Ok? {
      ExecutionFaults(gc, store, b, PlanBlock(gc, store, b, env).value, env);
    }
  }

  lemma ExecutionFaults(gc: GcState, store: Store, b: Block, plan: Plan, env: Env)
    ensures Execute(gc, store, b, plan, env).0 in {None, Some(SettingReadFail(0))}
    ensures Execute(gc, store, b, plan, env).1.feedRate == plan.feed
  {
    hide Recorded, BlockModes, ResetModes, Moved, NewCoordSystem, NewCoordOffset, NewToolLength;
  }

  lemma RapidRefused(gc: GcState, store: Store, env: Env)
    ensures RunLine(gc, store, "G93G0X1", env).0 == Some(UndefinedFeedRate)
  {
    RapidParses(StartBlock(gc));
    hide ParseFrom, Execute, PlanBlock;
    RapidsNeedFeed(gc, store, "G93G0X1", env);
  }

  lemma RapidParses(b: Block)
    requires b.axisCommand == NoAxisCommand && b.commandWords == {} && b.valueWords == {}
    ensures ParseFrom("G93G0X1", 0, b).Parsed?
    ensures var c := ParseFrom("G93G0X1", 0, b).block;
      c.modes[MODAL_GROUP_G5] == INVERSE_TIME && c.modes[MODAL_GROUP_G1] == SEEK && c.axisCommand == MotionMode && c.valueWords == {WORD_X}
  {
    hide ParseFrom, Step, StepWord;
    ParsesThree("G93", "G0", "X1", b);
    assert "G93" + "G0" + "X1" == "G93G0X1";
    TakesCommand(b, "G93", 93);
    FirstStep(b, ShortWordOf("G93"));
    var c := Step(Parsed(b), ShortWordOf("G93")).block;
    TakesCommand(c, "G0", 0);
    TakesValue(Step(Parsed(c), ShortWordOf("G0")).block, "X1", WORD_X);
  }

  // ---- Feed rates in inches after inverse time ----

  /** The programmed feed rate in millimetres per minute. */
  function FeedInMm(b: Block): real {
    if b.modes[MODAL_GROUP_G6] == INCHES then b.values[WORD_F] * MM_PER_INCH else b.values[WORD_F]
  }

  /** The F word of an accepted line out of inverse time becomes the feed rate in millimetres per minute, except
      exactly in inches on a line that leaves inverse time. */
  lemma FeedIsInMm(gc: GcState, store: Store, line: string, env: Env)
    requires ParseFrom(line, 0, StartBlock(gc)).Parsed? && PlanBlock(gc, store, BlockOf(gc, line), env).Ok?
    requires HasWord(BlockOf(gc, line), WORD_F) && BlockOf(gc, line).modes[MODAL_GROUP_G5] != INVERSE_TIME
    ensures var b := BlockOf(gc, line);
      RunLine(gc, store, line, env).1.feedRate == FeedInMm(b) <==>
        !(gc.modes[MODAL_GROUP_G5] == INVERSE_TIME && b.modes[MODAL_GROUP_G6] == INCHES && b.values[WORD_F] != 0.0)
  {
    hide ParseFrom, Execute, NonModalAction, CoordinateData, MotionCheck, UsedWords;
    var b := BlockOf(gc, line);
    ExecutionFaults(gc, store, b, PlanBlock(gc, store, b, env).value, env);
  }

  lemma InchesTakenAsMm(gc: GcState, store: Store, env: Env)
    requires gc.modes[MODAL_GROUP_G0] == 0 && gc.modes[MODAL_GROUP_G5] == INVERSE_TIME
    ensures RunLine(gc, store, "G94G20F1", env).1.feedRate == 1.0
  {
    InchesParse(StartBlock(gc));
    var c := BlockOf(gc, "G94G20F1");
    hide ParseFrom;
    FeedKept(gc, store, c, env);
    ExecutionFaults(gc, store, c, PlanBlock(gc, store, c, env).value, env);
    hide PlanBlock, Execute;
  }

  lemma InchesParse(b: Block)
    requires b.axisCommand == NoAxisCommand && b.commandWords == {} && b.valueWords == {}
    ensures ParseFrom("G94G20F1", 0, b).Parsed?
    ensures var c := ParseFrom("G94G20F1", 0, b).block;
      && c.modes[MODAL_GROUP_G5] == 0 && c.modes[MODAL_GROUP_G0] == b.modes[MODAL_GROUP_G0] && c.axisCommand == NoAxisCommand
      && MODAL_GROUP_G12 !in c.commandWords && c.valueWords == {WORD_F} && c.values[WORD_F] == 1.0
  {
    hide ParseFrom, Step, StepWord;
    ParsesThree("G94", "G20", "F1", b);
    assert "G94" + "G20" + "F1" == "G94G20F1";
    TakesCommand(b, "G94", 94);
    FirstStep(b, ShortWordOf("G94"));
    var c := Step(Parsed(b), ShortWordOf("G94")).block;
    TakesCommand(c, "G20", 20);
    TakesValue(Step(Parsed(c), ShortWordOf("G20")).block, "F1", WORD_F);
  }

  lemma FeedKept(gc: GcState, store: Store, c: Block, env: Env)
    requires gc.modes[MODAL_GROUP_G5] == INVERSE_TIME && c.modes[MODAL_GROUP_G5] == 0 && c.modes[MODAL_GROUP_G0] == 0
    requires c.axisCommand == NoAxisCommand && MODAL_GROUP_G12 !in c.commandWords && c.valueWords == {WORD_F}
    ensures PlanBlock(gc, store, c, env).Ok? && PlanBlock(gc, store, c, env).value.feed == c.values[WORD_F]
  {
  }

  // ---- G10 without P or L ----

  /** A G10 line that gets as far as its own checks is refused for a missing P or L word exactly if it has
      neither, though it should have both. */
  lemma CoordinateDataWords(gc: GcState, store: Store, line: string, env: Env)
    requires gc.modes[MODAL_GROUP_G0] == 0 && ParseFrom(line, 0, StartBlock(gc)).Parsed?
    requires BlockOf(gc, line).modes[MODAL_GROUP_G0] == SET_COORDINATE_DATA && AnyAxis(BlockOf(gc, line))
    ensures var b := BlockOf(gc, line);
      RunLine(gc, store, line, env).0 == Some(ValueWordMissing) <==>
        (!HasWord(b, WORD_P) && !HasWord(b, WORD_L)
         && (HasWord(b, WORD_N) ==> b.values[WORD_N] <= MAX_LINE_NUMBER) && CoordinateData(gc, store, b).Ok?)
  {
    hide ParseFrom, Execute, Target, OffsetFor, NewCoordinateData, ArcCheck, UsedWords;
    var b := BlockOf(gc, line);
    ParseOwns(line, 0, StartBlock(gc));
    if PlanBlock(gc, store, b, env).Ok? {
      ExecutionFaults(gc, store, b, PlanBlock(gc, store, b, env).value, env);
    }
  }

  lemma MissingPAccepted(gc: GcState, store: Store, env: Env)
    requires gc.modes[MODAL_GROUP_G0] == 0 && gc.modes[MODAL_GROUP_M4] == 0
    requires gc.modes[MODAL_GROUP_G12] < N_COORDINATE_SYSTEM && store[gc.modes[MODAL_GROUP_G12]].Some?
    ensures RunLine(gc, store, "G10L20X0", env).0 == None
  {
    SetPointParses(StartBlock(gc));
    var c := BlockOf(gc, "G10L20X0");
    hide ParseFrom;
    ImpliedPAccepted(gc, store, c, env);
    hide PlanBlock, Recorded, BlockModes, ResetModes, Moved, NewCoordSystem, NewCoordOffset, NewToolLength;
    assert Execute(gc, store, c, PlanBlock(gc, store, c, env).value, env).0 == None by {
      EndsOnlyByItself(gc, store, c, PlanBlock(gc, store, c, env).value, env);
    }
  }

  lemma EndsOnlyByItself(gc: GcState, store: Store, b: Block, plan: Plan, env: Env)
    requires b.modes[MODAL_GROUP_M4] != COMPLETED
    ensures Execute(gc, store, b, plan, env).0 == None
  {
    hide Recorded, BlockModes, ResetModes, Moved, NewCoordSystem, NewCoordOffset, NewToolLength;
  }

  lemma SetPointParses(b: Block)
    requires b.axisCommand == NoAxisCommand && b.commandWords == {} && b.valueWords == {} && b.values[WORD_P] == 0.0
    ensures ParseFrom("G10L20X0", 0, b).Parsed?
    ensures var c := ParseFrom("G10L20X0", 0, b).block;
      && c.modes == b.modes[MODAL_GROUP_G0 := SET_COORDINATE_DATA] && c.axisCommand == NonModal && c.commandWords == {MODAL_GROUP_G0}
      && c.valueWords == {WORD_L, WORD_X} && c.values[WORD_L] == 20.0 && c.values[WORD_P] == 0.0
  {
    hide ParseFrom, Step, StepWord;
    ParsesThree("G10", "L20", "X0", b);
    assert "G10" + "L20" + "X0" == "G10L20X0";
    TakesCommand(b, "G10", 10);
    FirstStep(b, ShortWordOf("G10"));
    var c := Step(Parsed(b), ShortWordOf("G10")).block;
    TakesValue(c, "L20", WORD_L);
    TakesValue(Step(Parsed(c), ShortWordOf("L20")).block, "X0", WORD_X);
  }

  lemma ImpliedPAccepted(gc: GcState, store: Store, c: Block, env: Env)
    requires c.modes == gc.modes[MODAL_GROUP_G0 := SET_COORDINATE_DATA] && c.axisCommand == NonModal
    requires gc.modes[MODAL_GROUP_G12] < N_COORDINATE_SYSTEM && store[gc.modes[MODAL_GROUP_G12]].Some?
    requires c.commandWords == {MODAL_GROUP_G0} && c.valueWords == {WORD_L, WORD_X} && c.values[WORD_L] == 20.0 && c.values[WORD_P] == 0.0
    ensures PlanBlock(gc, store, c, env).Ok?
  {
    assert IntValue(c.values[WORD_P]) == 0;
  }

  // ---- Radius arcs without a chord ----

  predicate NoChord(gc: GcState, b: Block, target: Vec) {
    var (a0, a1) := PlaneAxes(b);
    target[a0] == gc.position[a0] && target[a1] == gc.position[a1]
  }

  /** An arc given by its radius, which the code divides by its chord, passes the checks without a chord exactly
      if it moves along the third axis. */
  lemma RadiusArcWithoutChord(gc: GcState, b: Block, target: Vec, env: Env)
    requires HasWord(b, WORD_R) && (HasAxis(b, PlaneAxes(b).0) || HasAxis(b, PlaneAxes(b).1)) && NoChord(gc, b, target)
    ensures ArcCheck(gc, b, target, env).Ok? <==> target[LinearAxis(b)] != gc.position[LinearAxis(b)]
  {
    var r := if b.modes[MODAL_GROUP_G6] == INCHES then b.values[WORD_R] * MM_PER_INCH else b.values[WORD_R];
    assert 4.0 * r * r >= 0.0;
    if target[LinearAxis(b)] == gc.position[LinearAxis(b)] {
      assert gc.position == target;
    }
  }

  lemma ArcWithoutChordAccepted(gc: GcState, store: Store, env: Env)
    requires gc.modes[MODAL_GROUP_G0] == 0 && gc.modes[MODAL_GROUP_M4] == 0 && gc.modes[MODAL_GROUP_G1] == CW_ARC
    requires gc.modes[MODAL_GROUP_G2] == 0 && gc.modes[MODAL_GROUP_G3] != ABSOLUTE && gc.modes[MODAL_GROUP_G5] != INVERSE_TIME
    requires gc.feedRate != 0.0
    ensures RunLine(gc, store, "X0Z1R1", env).0 == None
    ensures ParseFrom("X0Z1R1", 0, StartBlock(gc)).Parsed? && PlanBlock(gc, store, BlockOf(gc, "X0Z1R1"), env).Ok?
    ensures NoChord(gc, BlockOf(gc, "X0Z1R1"), PlanBlock(gc, store, BlockOf(gc, "X0Z1R1"), env).value.target)
  {
    ArcParses(StartBlock(gc));
    var c := BlockOf(gc, "X0Z1R1");
    hide ParseFrom;
    ArcUpwards(gc, store, c, env);
    EndsOnlyByItself(gc, store, c, PlanBlock(gc, store, c, env).value, env);
    hide PlanBlock, Execute;
  }

  lemma ArcParses(b: Block)
    requires b.valueWords == {}
    ensures ParseFrom("X0Z1R1", 0, b).Parsed?
    ensures var c := ParseFrom("X0Z1R1", 0, b).block;
      && c.modes == b.modes && c.axisCommand == b.axisCommand && c.commandWords == b.commandWords
      && c.valueWords == {WORD_X, WORD_Z, WORD_R} && c.values == b.values[WORD_X := 0.0][WORD_Z := 1.0][WORD_R := 1.0]
  {
    hide ParseFrom, Step, StepWord;
    ParsesThree("X0", "Z1", "R1", b);
    assert "X0" + "Z1" + "R1" == "X0Z1R1";
    TakesValue(b, "X0", WORD_X);
    FirstStep(b, ShortWordOf("X0"));
    var c := Step(Parsed(b), ShortWordOf("X0")).block;
    TakesValue(c, "Z1", WORD_Z);
    TakesValue(Step(Parsed(c), ShortWordOf("Z1")).block, "R1", WORD_R);
  }

  lemma ArcUpwards(gc: GcState, store: Store, c: Block, env: Env)
    requires c.modes == gc.modes && c.axisCommand == NoAxisCommand && gc.modes[MODAL_GROUP_G0] == 0 && gc.modes[MODAL_GROUP_G1] == CW_ARC
    requires gc.modes[MODAL_GROUP_G2] == 0 && gc.modes[MODAL_GROUP_G3] != ABSOLUTE && gc.modes[MODAL_GROUP_G5] != INVERSE_TIME
    requires gc.feedRate != 0.0 && c.commandWords == {} && c.valueWords == {WORD_X, WORD_Z, WORD_R}
    requires c.values[WORD_X] == 0.0 && c.values[WORD_Z] == 1.0 && c.values[WORD_F] == 0.0
    ensures PlanBlock(gc, store, c, env).Ok? && NoChord(gc, c, PlanBlock(gc, store, c, env).value.target)
  {
    hide ArcCheck;
    var target := Target(gc, c, gc.coordSystem);
    RadiusArcWithoutChord(gc, c, target, env);
    ArcUses(gc, c, target, env);
  }

  lemma ArcUses(gc: GcState, b: Block, target: Vec, env: Env)
    requires HasWord(b, WORD_R)
    ensures ArcCheck(gc, b, target, env).Ok? ==> ArcCheck(gc, b, target, env).value == {WORD_R}
  {
  }
}
