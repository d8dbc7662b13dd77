/** What the words of a line mean: the modes they select, group by group, and where an accepted line takes the
    machine, said of the words and their numbers alone. */
module GcodeMeaning {
  import opened Numbers
  import opened GcodeWords
  import opened GcodeLine
  import opened Gcode
  import opened Reals
  import opened GcodeCases
  import A = Arc

  // ---- Commands by their numbers ----

  const MILLIMETRES := 0
  const INCREMENTAL := 1
  const UNITS_PER_MINUTE := 0
  const PLANE_XY := 0
  const PLANE_ZX := 1
  const PLANE_YZ := 2
  const SPINDLE_OFF := 0
  const SPINDLE_CW := 1
  const SPINDLE_CCW := 2
  const COOLANT_OFF := 0
  const COOLANT_FLOOD := 2
  const RUNNING := 0
  const PAUSED := 1

  /** A word's whole number n and hundredths h, as the parser keeps them. */
  predicate Names(w: Word, letter: char, n: nat, h: nat) {
    w.letter == letter && IntValue(w.value) == n && Mantissa(w.value) == h
  }

  /** A number with no more than two decimals is kept as it is. */
  lemma NamesItself(letter: char, n: nat, h: nat)
    requires n < 256 && h < 100
    ensures Names(Word(letter, n as real + h as real / 100.0), letter, n, h)
  {
    var v := n as real + h as real / 100.0;
    assert v.Floor == n;
    assert 100.0 * (v - n as real) == h as real;
    assert Round(h as real) == h;
  }

  predicate G(w: Word, n: nat) {
    Names(w, 'G', n, 0)
  }

  predicate M(w: Word, n: nat) {
    Names(w, 'M', n, 0)
  }

  /** G49, whatever its decimals. */
  predicate G49(w: Word) {
    w.letter == 'G' && IntValue(w.value) == 49
  }

  // ---- Modal groups ----

  function NonModalNamed(w: Word): Option<nat> {
    if G(w, 4) then Some(DWELL)
    else if G(w, 10) then Some(SET_COORDINATE_DATA)
    else if G(w, 28) then Some(GO_HOME_0)
    else if Names(w, 'G', 28, 10) then Some(SET_HOME_0)
    else if G(w, 30) then Some(GO_HOME_1)
    else if Names(w, 'G', 30, 10) then Some(SET_HOME_1)
    else if G(w, 53) then Some(ABSOLUTE_OVERRIDE)
    else if G(w, 92) then Some(SET_COORDINATE_OFFSET)
    else if Names(w, 'G', 92, 10) then Some(RESET_COORDINATE_OFFSET)
    else None
  }

  function MotionNamed(w: Word): Option<nat> {
    if G(w, 0) then Some(SEEK)
    else if G(w, 1) then Some(LINEAR)
    else if G(w, 2) then Some(CW_ARC)
    else if G(w, 3) then Some(CCW_ARC)
    else if Names(w, 'G', 38, 20) then Some(PROBE_TOWARD)
    else if Names(w, 'G', 38, 30) then Some(PROBE_TOWARD_NO_ERROR)
    else if Names(w, 'G', 38, 40) then Some(PROBE_AWAY)
    else if Names(w, 'G', 38, 50) then Some(PROBE_AWAY_NO_ERROR)
    else if G(w, 80) then Some(MOTION_NONE)
    else None
  }

  function PlaneNamed(w: Word): Option<nat> {
    if G(w, 17) then Some(PLANE_XY) else if G(w, 18) then Some(PLANE_ZX) else if G(w, 19) then Some(PLANE_YZ) else None
  }

  function SystemNamed(w: Word): Option<nat> {
    if G(w, 54) then Some(0) else if G(w, 55) then Some(1) else if G(w, 56) then Some(2)
    else if G(w, 57) then Some(3) else if G(w, 58) then Some(4) else if G(w, 59) then Some(5) else None
  }

  function FlowNamed(w: Word): Option<nat> {
    if M(w, 0) then Some(PAUSED) else if M(w, 2) || M(w, 30) then Some(COMPLETED) else None
  }

  function SpindleNamed(w: Word): Option<nat> {
    if M(w, 3) then Some(SPINDLE_CW) else if M(w, 4) then Some(SPINDLE_CCW) else if M(w, 5) then Some(SPINDLE_OFF) else None
  }

  function Either(first: bool, a: nat, second: bool, b: nat): Option<nat> {
    if first then Some(a) else if second then Some(b) else None
  }

  /** The mode of its group a command word names. */
  function ModeNamed(w: Word, g: nat): Option<nat> {
    if g == MODAL_GROUP_G0 then NonModalNamed(w)
    else if g == MODAL_GROUP_G1 then MotionNamed(w)
    else if g == MODAL_GROUP_G2 then PlaneNamed(w)
    else if g == MODAL_GROUP_G3 then Either(G(w, 90), ABSOLUTE, G(w, 91), INCREMENTAL)
    else if g == MODAL_GROUP_G5 then Either(G(w, 93), INVERSE_TIME, G(w, 94), UNITS_PER_MINUTE)
    else if g == MODAL_GROUP_G6 then Either(G(w, 20), INCHES, G(w, 21), MILLIMETRES)
    else if g == MODAL_GROUP_G8 then Either(Names(w, 'G', 43, 10), TOOL_LENGTH_DYNAMIC, G49(w), 0)
    else if g == MODAL_GROUP_G12 then SystemNamed(w)
    else if g == MODAL_GROUP_M4 then FlowNamed(w)
    else if g == MODAL_GROUP_M7 then SpindleNamed(w)
    else if g == MODAL_GROUP_M8 then Either(M(w, 8), COOLANT_FLOOD, M(w, 9), COOLANT_OFF)
    else None
  }

  /** The axis command a word claims. */
  function AxisClaimed(w: Word): AxisCommand {
    if MotionNamed(w).Some? && !G(w, 80) then MotionMode
    else if G(w, 10) || G(w, 28) || G(w, 30) || G(w, 92) then NonModal
    else if Names(w, 'G', 43, 10) || G49(w) then ToolLengthOffset
    else NoAxisCommand
  }

  /** A word the parser accepts selects the mode it names, and nothing else, and claims the axis words accordingly. */
  lemma CommandsMean(w: Word, g: nat)
    requires Legal(w) && g < GROUPS
    ensures if ModeNamed(w, g).Some? then Selects(w, g) && CommandOf(w).mode == ModeNamed(w, g) else !Selects(w, g)
    ensures if Claims(w) then CommandOf(w).axis == AxisClaimed(w) else AxisClaimed(w) == NoAxisCommand
  {
    hide IntValue, Mantissa;
  }

  /** The mode a line selects, or the one before. */
  function LineMode(words: seq<Word>, g: nat, was: nat): nat {
    if words == [] then was
    else
      var named := ModeNamed(words[|words| - 1], g);
      if named.Some? then named.value else LineMode(words[..|words| - 1], g, was)
  }

  /** The words the parser accepts are those that name a mode, and four that are taken and do nothing. */
  lemma LegalExactly(w: Word)
    requires IsCommand(w)
    ensures Legal(w) <==> (exists g: nat :: g < GROUPS && ModeNamed(w, g).Some?) || G(w, 40) || G(w, 61) || Names(w, 'G', 91, 10) || M(w, 1)
  {
    hide IntValue, Mantissa;
    if Legal(w) && !G(w, 40) && !G(w, 61) && !Names(w, 'G', 91, 10) && !M(w, 1) {
      assert ModeNamed(w, CommandOf(w).group).Some?;
    }
  }

  /** And the value words are those of thirteen letters, five of which take no negative number. */
  lemma LegalValues(w: Word)
    requires !IsCommand(w)
    ensures Legal(w) <==> w.letter in "FIJKLNPRSTXYZ" && (w.letter in "FNPST" ==> w.value >= 0.0)
  {
  }

  // ---- The block of a line ----

  /** The line parses. */
  predicate Parses(gc: GcState, texts: seq<string>) {
    AllWords(texts) && ParseFrom(Concat(texts), 0, StartBlock(gc)).Parsed?
  }

  /** The line is executed without a fault. */
  predicate Accepted(gc: GcState, store: Store, texts: seq<string>, env: Env) {
    AllWords(texts) && RunLine(gc, store, Concat(texts), env).0.None?
  }

  lemma LineWords(gc: GcState, texts: seq<string>)
    requires Parses(gc, texts)
    ensures var b, words := BlockOf(gc, Concat(texts)), WordsOf(texts);
      Reflects(StartBlock(gc), b, words) && Remembers(b, words) && forall i :: 0 <= i < |words| ==> Legal(words[i])
  {
    hide Concat, ParseFrom, WordText, WordOf, Import, Reflects, Remembers, WordsOf, Compatible, Legal;
    var line, b, words := Concat(texts), StartBlock(gc), WordsOf(texts);
    assert line[0..] == line;
    ParseIsImport(line, 0, texts, b);
    BlockReflectsWords(b, words);
    AcceptedIffConsistent(b, words);
  }

  lemma {:induction false} NamedOrWas(words: seq<Word>, g: nat, was: nat)
    ensures (LineMode(words, g, was) == was && forall i :: 0 <= i < |words| ==> ModeNamed(words[i], g).None?)
         || exists i :: 0 <= i < |words| && ModeNamed(words[i], g) == Some(LineMode(words, g, was))
  {
    hide ModeNamed;
    if words != [] && ModeNamed(words[|words| - 1], g).None? {
      var before := words[..|words| - 1];
      NamedOrWas(before, g, was);
      if i :| 0 <= i < |before| && ModeNamed(before[i], g) == Some(LineMode(before, g, was)) {
        assert words[i] == before[i];
      } else {
        assert forall i :: 0 <= i < |before| ==> words[i] == before[i];
      }
    }
  }

  /** In every modal group the block has the mode the line's word names, or the one before. */
  lemma ModesMean(gc: GcState, texts: seq<string>, g: nat)
    requires Parses(gc, texts) && g < GROUPS
    ensures BlockOf(gc, Concat(texts)).modes[g] == LineMode(WordsOf(texts), g, gc.modes[g])
  {
    hide Concat, ParseFrom, WordText, WordOf, WordsOf, Selects, CommandOf, Legal, ModeNamed, LineMode, Remembers;
    var b, words := BlockOf(gc, Concat(texts)), WordsOf(texts);
    LineWords(gc, texts);
    NamedOrWas(words, g, gc.modes[g]);
    if i :| 0 <= i < |words| && ModeNamed(words[i], g) == Some(LineMode(words, g, gc.modes[g])) {
      CommandsMean(words[i], g);
    } else {
      forall i | 0 <= i < |words| ensures !Selects(words[i], g) {
        CommandsMean(words[i], g);
      }
    }
  }

  /** A word that names a mode is the one its group takes. */
  lemma WordChooses(gc: GcState, texts: seq<string>, w: Word, g: nat)
    requires Parses(gc, texts) && g < GROUPS && w in WordsOf(texts) && ModeNamed(w, g).Some?
    ensures LineMode(WordsOf(texts), g, gc.modes[g]) == ModeNamed(w, g).value
  {
    hide Concat, ParseFrom, WordText, WordOf, WordsOf, Selects, CommandOf, Legal, ModeNamed, LineMode, Remembers;
    var words := WordsOf(texts);
    var i :| 0 <= i < |words| && words[i] == w;
    LineWords(gc, texts);
    ModesMean(gc, texts, g);
    CommandsMean(w, g);
  }

  /** The axis command of the block: the one a word claims, if any does. */
  lemma AxisMeans(gc: GcState, texts: seq<string>)
    requires Parses(gc, texts)
    ensures var b, words := BlockOf(gc, Concat(texts)), WordsOf(texts);
      && (forall i :: 0 <= i < |words| && AxisClaimed(words[i]) != NoAxisCommand ==> b.axisCommand == AxisClaimed(words[i]))
      && ((forall i :: 0 <= i < |words| ==> AxisClaimed(words[i]) == NoAxisCommand) ==> b.axisCommand == NoAxisCommand)
  {
    hide Concat, ParseFrom, WordText, WordOf, WordsOf, CommandOf, Legal, AxisClaimed, Selects, Remembers;
    var words := WordsOf(texts);
    LineWords(gc, texts);
    forall i | 0 <= i < |words| ensures if Claims(words[i]) then CommandOf(words[i]).axis == AxisClaimed(words[i]) else AxisClaimed(words[i]) == NoAxisCommand {
      CommandsMean(words[i], 0);
    }
  }

  const VALUE_LETTERS := "FIJKPRSXYZ"

  /** The block has the value of each of the line's value words, and zero for a letter that has none. */
  lemma ValuesMean(gc: GcState, texts: seq<string>, letter: char, v: real)
    requires Parses(gc, texts) && letter in VALUE_LETTERS
    ensures var b, words, bit := BlockOf(gc, Concat(texts)), WordsOf(texts), WordBit(letter);
      && bit.Some? && (HasWord(b, bit.value) <==> HasLetter(words, letter))
      && (Word(letter, v) in words ==> b.values[bit.value] == v)
      && (!HasWord(b, bit.value) ==> b.values[bit.value] == 0.0)
  {
    hide Concat, ParseFrom, WordText, WordOf, WordsOf, CommandOf, Legal, Selects;
    var b, words, bit := BlockOf(gc, Concat(texts)), WordsOf(texts), WordBit(letter);
    LineWords(gc, texts);
    assert bit.Some? && letter != 'G' && letter != 'M' && StoredValue(Word(letter, v)) == v;
    hide StoredValue, WordBit;
    forall i | 0 <= i < |words| && Assigns(words[i], bit.value) ensures words[i].letter == letter {
      LettersOwnBits(words[i].letter, letter);
    }
    forall i | 0 <= i < |words| && words[i].letter == letter ensures Assigns(words[i], bit.value) {
    }
    if Word(letter, v) in words {
      var i :| 0 <= i < |words| && words[i] == Word(letter, v);
      assert Assigns(words[i], bit.value);
    }
  }

  // ---- Where a line goes ----

  function AxisLetter(i: nat): char
    requires i < AXES
  {
    if i == 0 then 'X' else if i == 1 then 'Y' else 'Z'
  }

  /** A length programmed on the line, in millimetres. */
  function Length(gc: GcState, words: seq<Word>, v: real): real {
    if LineMode(words, MODAL_GROUP_G6, gc.modes[MODAL_GROUP_G6]) == INCHES then 25.4 * v else v
  }

  /** The coordinate system the line is executed in: the record of the number it selects. */
  function System(gc: GcState, store: Store, words: seq<Word>): Option<Vec> {
    var select := LineMode(words, MODAL_GROUP_G12, gc.modes[MODAL_GROUP_G12]);
    if select == gc.modes[MODAL_GROUP_G12] then Some(gc.coordSystem) else Read(store, select)
  }

  /** Where axis i of a line with value v for it is to go, in system w: to v in machine coordinates after G53, to v in
      the coordinate system and offsets in force in absolute distance mode, and by v otherwise. */
  function Goal(gc: GcState, w: Vec, words: seq<Word>, i: nat, v: real): real
    requires i < AXES
  {
    if LineMode(words, MODAL_GROUP_G0, gc.modes[MODAL_GROUP_G0]) == ABSOLUTE_OVERRIDE then Length(gc, words, v)
    else if LineMode(words, MODAL_GROUP_G3, gc.modes[MODAL_GROUP_G3]) == ABSOLUTE then
      Length(gc, words, v) + w[i] + gc.coordOffset[i] + if i == 2 then gc.toolLengthOffset else 0.0
    else gc.position[i] + Length(gc, words, v)
  }

  predicate HasLetter(words: seq<Word>, letter: char) {
    exists i :: 0 <= i < |words| && words[i].letter == letter
  }

  predicate HasAxisWord(words: seq<Word>) {
    HasLetter(words, 'X') || HasLetter(words, 'Y') || HasLetter(words, 'Z')
  }

  /** The line has axis words, and no word takes them from the motion mode. */
  predicate MovesAxes(words: seq<Word>) {
    && HasAxisWord(words)
    && forall i :: 0 <= i < |words| ==> AxisClaimed(words[i]) in {NoAxisCommand, MotionMode}
  }

  /** Every axis the line names goes to its goal, and the others stay. */
  ghost predicate Reaches(gc: GcState, w: Vec, words: seq<Word>, target: Vec) {
    forall i :: 0 <= i < AXES ==>
      && (forall v :: Word(AxisLetter(i), v) in words ==> target[i] == Goal(gc, w, words, i, v))
      && (!HasLetter(words, AxisLetter(i)) ==> target[i] == gc.position[i])
  }

  lemma TargetMeans(gc: GcState, w: Vec, texts: seq<string>)
    requires Parses(gc, texts) && HasAxisWord(WordsOf(texts)) && BlockOf(gc, Concat(texts)).axisCommand != ToolLengthOffset
    ensures AnyAxis(BlockOf(gc, Concat(texts))) && Reaches(gc, w, WordsOf(texts), Target(gc, BlockOf(gc, Concat(texts)), w))
  {
    hide Concat, ParseFrom, WordText, WordOf, WordsOf, ModeNamed, LineMode;
    var b, words := BlockOf(gc, Concat(texts)), WordsOf(texts);
    ModesMean(gc, texts, MODAL_GROUP_G0);
    ModesMean(gc, texts, MODAL_GROUP_G3);
    ModesMean(gc, texts, MODAL_GROUP_G6);
    ValuesMean(gc, texts, 'X', 0.0);
    ValuesMean(gc, texts, 'Y', 0.0);
    ValuesMean(gc, texts, 'Z', 0.0);
    forall i, v | 0 <= i < AXES && Word(AxisLetter(i), v) in words ensures Target(gc, b, w)[i] == Goal(gc, w, words, i, v) {
      ValuesMean(gc, texts, AxisLetter(i), v);
    }
  }

  lemma AxisWordsMean(gc: GcState, texts: seq<string>)
    requires Parses(gc, texts)
    ensures AnyAxis(BlockOf(gc, Concat(texts))) <==> HasAxisWord(WordsOf(texts))
  {
    hide Concat, ParseFrom, WordText, WordOf, WordsOf, HasLetter;
    ValuesMean(gc, texts, 'X', 0.0);
    ValuesMean(gc, texts, 'Y', 0.0);
    ValuesMean(gc, texts, 'Z', 0.0);
  }

  lemma MotionWords(gc: GcState, texts: seq<string>)
    requires Parses(gc, texts) && MovesAxes(WordsOf(texts))
    ensures var b := BlockOf(gc, Concat(texts)); b.axisCommand in {NoAxisCommand, MotionMode} && AnyAxis(b) && ImpliedAxisCommand(b) == MotionMode
  {
    hide Concat, ParseFrom, WordText, WordOf, WordsOf, AxisClaimed;
    AxisMeans(gc, texts);
    AxisWordsMean(gc, texts);
  }

  /** An accepted line has been parsed, planned and executed. */
  lemma Planned(gc: GcState, store: Store, texts: seq<string>, env: Env) returns (plan: Plan)
    requires Accepted(gc, store, texts, env)
    ensures Parses(gc, texts) && PlanBlock(gc, store, BlockOf(gc, Concat(texts)), env) == Ok(plan)
    ensures RunLine(gc, store, Concat(texts), env) == Execute(gc, store, BlockOf(gc, Concat(texts)), plan, env)
    ensures LineMotions(gc, store, Concat(texts), env) == Motions(gc.position, BlockOf(gc, Concat(texts)), plan, env)
  {
    hide ParseFrom, PlanBlock, Execute, Motions, WordText, Concat;
    plan := PlanBlock(gc, store, BlockOf(gc, Concat(texts)), env).value;
  }

  lemma PlanParts(gc: GcState, store: Store, b: Block, env: Env, plan: Plan)
    requires PlanBlock(gc, store, b, env) == Ok(plan)
    ensures Feed(gc, b) == Ok(plan.feed) && CoordinateData(gc, store, b) == Ok(plan.coordinateData)
    ensures plan.speed == if HasWord(b, WORD_S) then b.values[WORD_S] else gc.spindleSpeed
  {
    hide Feed, CoordinateData, NonModalAction, MotionCheck, UsedWords, DynamicAxisError;
  }

  lemma MotionPlanned(gc: GcState, store: Store, b: Block, env: Env, plan: Plan)
    requires PlanBlock(gc, store, b, env) == Ok(plan) && AnyAxis(b) && ImpliedAxisCommand(b) == MotionMode && OwnsAxisWords(b)
    ensures plan.target == Target(gc, b, plan.coordinateData) && plan.axisCommand == MotionMode && b.modes[MODAL_GROUP_G1] != MOTION_NONE
    ensures HomeMotions(b, plan) == []
  {
    hide Feed, CoordinateData, UsedWords, DynamicAxisError, Target, ArcCheck, SetCoordinateData, OffsetFor;
  }

  lemma BlockOwns(gc: GcState, texts: seq<string>)
    requires Parses(gc, texts) && gc.modes[MODAL_GROUP_G0] == 0
    ensures OwnsAxisWords(BlockOf(gc, Concat(texts)))
  {
    hide ParseFrom, WordText, Concat;
    ParseOwns(Concat(texts), 0, StartBlock(gc));
  }

  lemma SystemMeans(gc: GcState, store: Store, texts: seq<string>, w: Vec)
    requires Parses(gc, texts) && CoordinateData(gc, store, BlockOf(gc, Concat(texts))) == Ok(w)
    ensures System(gc, store, WordsOf(texts)) == Some(w)
  {
    hide ParseFrom, WordText, Concat, WordsOf, CommandOf, ModeNamed, LineMode, Legal, WordOf;
    var b, words, g := BlockOf(gc, Concat(texts)), WordsOf(texts), MODAL_GROUP_G12;
    LineWords(gc, texts);
    ModesMean(gc, texts, g);
    if b.modes[g] != gc.modes[g] {
      var i :| 0 <= i < |words| && Selects(words[i], g);
      assert g in b.commandWords;
    }
  }

  /** A line that moves axes in a straight line, rapidly or at a feed rate, ends with every axis at its goal, and asks
      motion control for the move there. */
  lemma StraightMove(gc: GcState, store: Store, texts: seq<string>, env: Env)
    requires gc.modes[MODAL_GROUP_G0] == 0 && Accepted(gc, store, texts, env) && MovesAxes(WordsOf(texts))
    requires LineMode(WordsOf(texts), MODAL_GROUP_G1, gc.modes[MODAL_GROUP_G1]) in {SEEK, LINEAR}
    ensures var (words, line) := (WordsOf(texts), Concat(texts));
      var g := RunLine(gc, store, line, env).1;
      && System(gc, store, words).Some? && Reaches(gc, System(gc, store, words).value, words, g.position)
      && LineMotions(gc, store, line, env) ==
           if LineMode(words, MODAL_GROUP_G1, gc.modes[MODAL_GROUP_G1]) == SEEK then [Rapid(g.position)]
           else [Straight(g.position, g.feedRate, LineMode(words, MODAL_GROUP_G5, gc.modes[MODAL_GROUP_G5]) == INVERSE_TIME)]
  {
    hide ParseFrom, PlanBlock, Execute, WordText, Concat, WordsOf, LineMode, Reaches, MovesAxes, Target, HomeMotions, ArcCentre;
    var b := BlockOf(gc, Concat(texts));
    var plan := Planned(gc, store, texts, env);
    PlanParts(gc, store, b, env, plan);
    SystemMeans(gc, store, texts, plan.coordinateData);
    MotionWords(gc, texts);
    AxisWordsMean(gc, texts);
    TargetMeans(gc, plan.coordinateData, texts);
    BlockOwns(gc, texts);
    MotionPlanned(gc, store, b, env, plan);
    ModesMean(gc, texts, MODAL_GROUP_G1);
    ModesMean(gc, texts, MODAL_GROUP_G5);
    Executed(gc, store, b, plan, env);
  }

  lemma Executed(gc: GcState, store: Store, b: Block, plan: Plan, env: Env)
    ensures var (fault, g, s) := Execute(gc, store, b, plan, env);
      && g.lineNumber == b.values[WORD_N] && g.position == Moved(gc.position, b, plan, env) && g.feedRate == plan.feed && g.spindleSpeed == plan.speed
      && g.coordOffset == NewCoordOffset(gc.coordOffset, b, plan) && g.toolLengthOffset == NewToolLength(gc.toolLengthOffset, b, plan)
      && (b.modes[MODAL_GROUP_M4] != COMPLETED ==>
            fault.None? && s == Recorded(gc.position, store, b, plan) && g.modes == BlockModes(gc.modes, b, plan)[MODAL_GROUP_M4 := 0]
            && g.coordSystem == NewCoordSystem(gc.modes[MODAL_GROUP_G12], gc.coordSystem, b, plan))
  {
    hide Recorded, BlockModes, ResetModes, Moved, NewCoordOffset, NewCoordSystem, NewToolLength;
    var m := BlockModes(gc.modes, b, plan);
    assert m[MODAL_GROUP_M4 := b.modes[MODAL_GROUP_M4]][MODAL_GROUP_M4 := 0] == m[MODAL_GROUP_M4 := 0];
  }

  // ---- Arcs ----

  /** The letter of the offset along an axis. */
  function OffsetLetter(i: nat): char
    requires i < AXES
  {
    if i == 0 then 'I' else if i == 1 then 'J' else 'K'
  }

  /** The plane of an arc and the axis across it: XY along Z, ZX along Y, or YZ along X. */
  function ArcPlane(plane: nat): (nat, nat, nat) {
    if plane == PLANE_XY then (0, 1, 2) else if plane == PLANE_ZX then (2, 0, 1) else (1, 2, 0)
  }

  /** An offset word gives the way to the centre along its axis; without it there is none. */
  ghost predicate Offsets(gc: GcState, words: seq<Word>, i: nat, x: real)
    requires i < AXES
  {
    && (forall v :: Word(OffsetLetter(i), v) in words ==> x == Length(gc, words, v))
    && (!HasLetter(words, OffsetLetter(i)) ==> x == 0.0)
  }

  lemma OffsetMeans(gc: GcState, texts: seq<string>, i: nat)
    requires Parses(gc, texts) && i < AXES
    ensures Offsets(gc, WordsOf(texts), i, ValueMm(BlockOf(gc, Concat(texts)), WORD_I + i))
  {
    hide Concat, ParseFrom, WordText, WordOf, WordsOf, ModeNamed, LineMode;
    var b, words := BlockOf(gc, Concat(texts)), WordsOf(texts);
    ModesMean(gc, texts, MODAL_GROUP_G6);
    ValuesMean(gc, texts, OffsetLetter(i), 0.0);
    forall v | Word(OffsetLetter(i), v) in words ensures ValueMm(b, WORD_I + i) == Length(gc, words, v) {
      ValuesMean(gc, texts, OffsetLetter(i), v);
    }
  }

  /** The centre is asked for: at the offsets of the plane's axes, or, with a radius on the line, in motion control's
      way of computing it. */
  ghost predicate Centred(gc: GcState, words: seq<Word>, target: Vec, m: Motion, env: Env)
    requires m.ArcMove? && m.a0 < AXES && m.a1 < AXES
  {
    if HasLetter(words, 'R') then
      forall v :: Word('R', v) in words ==> RadiusCentred(gc.position, target, Length(gc, words, v), m, env)
    else
      m.centre.Some? && Offsets(gc, words, m.a0, m.centre.value.0) && Offsets(gc, words, m.a1, m.centre.value.1)
      && m.radius == env.hypot(m.centre.value.0, m.centre.value.1)
  }

  /** With true roots, the centre of an arc of radius r is at that distance from both ends, to the right of the chord
      if the arc is clockwise and r positive; a chord of zero leaves no centre. */
  ghost predicate RadiusCentred(start: Vec, target: Vec, r: real, m: Motion, env: Env)
    requires m.ArcMove? && m.a0 < AXES && m.a1 < AXES
  {
    var x, y := target[m.a0] - start[m.a0], target[m.a1] - start[m.a1];
    && m.radius == RealAbs(r)
    && (TrueRoots(env, x, y, r) ==>
          if x == 0.0 && y == 0.0 then m.centre.None?
          else m.centre.Some? && A.CentredAt(x, y, r, m.clockwise, m.centre.value.0, m.centre.value.1))
  }

  ghost predicate TrueRoots(env: Env, x: real, y: real, r: real) {
    var h, d := env.root(A.OffSquared(x, y, r)), env.hypot(x, y);
    h >= 0.0 && A.Squared(h) == A.OffSquared(x, y, r) && d >= 0.0 && A.Squared(d) == A.NormSquared(x, y)
  }

  lemma RadiusMeans(gc: GcState, b: Block, target: Vec, env: Env, m: Motion)
    requires HasWord(b, WORD_R) && m.ArcMove? && (m.a0, m.a1) == PlaneAxes(b) && m.clockwise == (b.modes[MODAL_GROUP_G1] == CW_ARC)
    requires (m.centre, m.radius) == ArcCentre(gc.position, b, target, env)
    ensures RadiusCentred(gc.position, target, ValueMm(b, WORD_R), m, env)
  {
    var x, y, r := target[m.a0] - gc.position[m.a0], target[m.a1] - gc.position[m.a1], ValueMm(b, WORD_R);
    hide ValueMm, PlaneAxes, A.OffSquared, A.NormSquared, A.Squared, A.CentreX, A.CentreY, A.CentredAt, A.OffChord;
    var h, d := env.root(A.OffSquared(x, y, r)), env.hypot(x, y);
    if TrueRoots(env, x, y, r) {
      ChordZero(x, y, d);
      if d != 0.0 {
        A.RadiusModeCentre(x, y, r, h, d, m.clockwise);
      }
    }
  }

  lemma ChordZero(x: real, y: real, d: real)
    requires d >= 0.0 && A.Squared(d) == A.NormSquared(x, y)
    ensures d == 0.0 <==> x == 0.0 && y == 0.0
  {
    A.NormZero(x, y);
    if d > 0.0 {
      TimesPositive(d, d);
    }
  }

  /** A line that draws an arc asks for it in the plane it selects, clockwise exactly for G2, to the goals of its axes,
      about the centre its offsets or its radius give. */
  lemma ArcDrawn(gc: GcState, store: Store, texts: seq<string>, env: Env)
    requires gc.modes[MODAL_GROUP_G0] == 0 && Accepted(gc, store, texts, env) && MovesAxes(WordsOf(texts))
    requires LineMode(WordsOf(texts), MODAL_GROUP_G1, gc.modes[MODAL_GROUP_G1]) in {CW_ARC, CCW_ARC}
    ensures var (words, line) := (WordsOf(texts), Concat(texts));
      var (g, motions) := (RunLine(gc, store, line, env).1, LineMotions(gc, store, line, env));
      && System(gc, store, words).Some? && Reaches(gc, System(gc, store, words).value, words, g.position)
      && |motions| == 1 && motions[0].ArcMove? && motions[0].target == g.position && motions[0].feed == g.feedRate
      && (motions[0].clockwise <==> LineMode(words, MODAL_GROUP_G1, gc.modes[MODAL_GROUP_G1]) == CW_ARC)
      && (motions[0].inverseTime <==> LineMode(words, MODAL_GROUP_G5, gc.modes[MODAL_GROUP_G5]) == INVERSE_TIME)
      && (motions[0].a0, motions[0].a1, motions[0].linear) == ArcPlane(LineMode(words, MODAL_GROUP_G2, gc.modes[MODAL_GROUP_G2]))
      && Centred(gc, words, g.position, motions[0], env)
  {
    hide ParseFrom, PlanBlock, Execute, WordText, Concat, WordsOf, LineMode, Reaches, MovesAxes, Target, HomeMotions, ArcCentre, Centred;
    var b := BlockOf(gc, Concat(texts));
    var plan := Planned(gc, store, texts, env);
    PlanParts(gc, store, b, env, plan);
    SystemMeans(gc, store, texts, plan.coordinateData);
    MotionWords(gc, texts);
    AxisWordsMean(gc, texts);
    TargetMeans(gc, plan.coordinateData, texts);
    BlockOwns(gc, texts);
    MotionPlanned(gc, store, b, env, plan);
    ModesMean(gc, texts, MODAL_GROUP_G1);
    ModesMean(gc, texts, MODAL_GROUP_G2);
    ModesMean(gc, texts, MODAL_GROUP_G5);
    Executed(gc, store, b, plan, env);
    CentreMeans(gc, texts, plan.target, env, LineMotions(gc, store, Concat(texts), env)[0]);
  }

  lemma CentreMeans(gc: GcState, texts: seq<string>, target: Vec, env: Env, m: Motion)
    requires Parses(gc, texts) && m.ArcMove?
    requires var b := BlockOf(gc, Concat(texts));
      && (m.a0, m.a1) == PlaneAxes(b) && m.clockwise == (b.modes[MODAL_GROUP_G1] == CW_ARC)
      && (m.centre, m.radius) == ArcCentre(gc.position, b, target, env)
    ensures Centred(gc, WordsOf(texts), target, m, env)
  {
    hide ParseFrom, WordText, Concat, WordsOf, LineMode, Offsets, RadiusCentred;
    var b, words := BlockOf(gc, Concat(texts)), WordsOf(texts);
    ModesMean(gc, texts, MODAL_GROUP_G6);
    ValuesMean(gc, texts, 'R', 0.0);
    OffsetMeans(gc, texts, m.a0);
    OffsetMeans(gc, texts, m.a1);
    if HasWord(b, WORD_R) {
      forall v | Word('R', v) in words ensures RadiusCentred(gc.position, target, Length(gc, words, v), m, env) {
        ValuesMean(gc, texts, 'R', v);
        RadiusMeans(gc, b, target, env, m);
      }
    }
  }

  // ---- What a line leaves in force ----

  /** A line ends the program exactly if it has an M2 or M30 word, or the program flow was left completed and it has
      no M0 either. */
  lemma EndsProgram(gc: GcState, texts: seq<string>)
    requires Parses(gc, texts)
    ensures var words := WordsOf(texts);
      BlockOf(gc, Concat(texts)).modes[MODAL_GROUP_M4] == COMPLETED <==>
        || (exists i :: 0 <= i < |words| && EndWord(words[i]))
        || (gc.modes[MODAL_GROUP_M4] == COMPLETED && forall i :: 0 <= i < |words| ==> !EndWord(words[i]) && !M(words[i], 0))
  {
    hide Concat, ParseFrom, WordText, WordOf, WordsOf, IntValue, Mantissa, LineMode;
    var words := WordsOf(texts);
    ModesMean(gc, texts, MODAL_GROUP_M4);
    NamedOrWas(words, MODAL_GROUP_M4, gc.modes[MODAL_GROUP_M4]);
    forall i | 0 <= i < |words| && FlowNamed(words[i]).Some?
      ensures LineMode(words, MODAL_GROUP_M4, gc.modes[MODAL_GROUP_M4]) == FlowNamed(words[i]).value
    {
      WordChooses(gc, texts, words[i], MODAL_GROUP_M4);
    }
  }

  predicate EndWord(w: Word) {
    M(w, 2) || M(w, 30)
  }

  /** Unless it ends the program, an accepted line leaves in force what its words name, group by group: the motion
      mode, plane, distance mode, feed mode, units, coordinate system, spindle and coolant. */
  lemma ModesInForce(gc: GcState, store: Store, texts: seq<string>, env: Env, g: nat)
    requires Accepted(gc, store, texts, env)
    requires g in {MODAL_GROUP_G1, MODAL_GROUP_G2, MODAL_GROUP_G3, MODAL_GROUP_G5, MODAL_GROUP_G6, MODAL_GROUP_G12, MODAL_GROUP_M7, MODAL_GROUP_M8}
    requires LineMode(WordsOf(texts), MODAL_GROUP_M4, gc.modes[MODAL_GROUP_M4]) != COMPLETED
    ensures RunLine(gc, store, Concat(texts), env).1.modes[g] == LineMode(WordsOf(texts), g, gc.modes[g])
  {
    hide ParseFrom, PlanBlock, Execute, Motions, WordText, Concat, WordsOf, LineMode;
    var b := BlockOf(gc, Concat(texts));
    var plan := Planned(gc, store, texts, env);
    Executed(gc, store, b, plan, env);
    ModesMean(gc, texts, g);
    ModesMean(gc, texts, MODAL_GROUP_M4);
  }

  /** A program end leaves straight moves, the XY plane, absolute distances, units per minute, the first coordinate
      system, spindle and coolant off, and the units as they are. */
  lemma ProgramEnd(gc: GcState, store: Store, texts: seq<string>, env: Env)
    requires Accepted(gc, store, texts, env)
    requires LineMode(WordsOf(texts), MODAL_GROUP_M4, gc.modes[MODAL_GROUP_M4]) == COMPLETED
    ensures var m := RunLine(gc, store, Concat(texts), env).1.modes;
      && m[MODAL_GROUP_G1] == LINEAR && m[MODAL_GROUP_G2] == PLANE_XY && m[MODAL_GROUP_G3] == ABSOLUTE && m[MODAL_GROUP_G5] == UNITS_PER_MINUTE
      && m[MODAL_GROUP_G12] == 0 && m[MODAL_GROUP_M7] == SPINDLE_OFF && m[MODAL_GROUP_M8] == COOLANT_OFF && m[MODAL_GROUP_M4] == RUNNING
      && m[MODAL_GROUP_G6] == LineMode(WordsOf(texts), MODAL_GROUP_G6, gc.modes[MODAL_GROUP_G6])
  {
    hide ParseFrom, PlanBlock, Execute, Motions, WordText, Concat, WordsOf, LineMode;
    var b := BlockOf(gc, Concat(texts));
    var plan := Planned(gc, store, texts, env);
    ModesMean(gc, texts, MODAL_GROUP_G6);
    ModesMean(gc, texts, MODAL_GROUP_M4);
    Ended(gc, store, b, plan, env);
  }

  lemma Ended(gc: GcState, store: Store, b: Block, plan: Plan, env: Env)
    requires b.modes[MODAL_GROUP_M4] == COMPLETED && Execute(gc, store, b, plan, env).0.None?
    ensures var m := Execute(gc, store, b, plan, env).1.modes;
      && m[MODAL_GROUP_G1] == LINEAR && m[MODAL_GROUP_G2] == PLANE_XY && m[MODAL_GROUP_G3] == ABSOLUTE && m[MODAL_GROUP_G5] == UNITS_PER_MINUTE
      && m[MODAL_GROUP_G12] == 0 && m[MODAL_GROUP_M7] == SPINDLE_OFF && m[MODAL_GROUP_M8] == COOLANT_OFF && m[MODAL_GROUP_M4] == RUNNING
      && m[MODAL_GROUP_G6] == b.modes[MODAL_GROUP_G6]
  {
    hide Recorded, Moved, NewCoordOffset, NewCoordSystem, NewToolLength;
  }

  /** The feed rate and the spindle speed after an accepted line: the F word, in millimetres except in inverse time and
      on a line that leaves it, or the rate before; and the S word, or the speed before. */
  lemma RatesMean(gc: GcState, store: Store, texts: seq<string>, env: Env, v: real)
    requires Accepted(gc, store, texts, env)
    ensures var (words, g) := (WordsOf(texts), RunLine(gc, store, Concat(texts), env).1);
      var inverse := LineMode(words, MODAL_GROUP_G5, gc.modes[MODAL_GROUP_G5]) == INVERSE_TIME || gc.modes[MODAL_GROUP_G5] == INVERSE_TIME;
      && (Word('F', v) in words ==> g.feedRate == if inverse then v else Length(gc, words, v))
      && (!HasLetter(words, 'F') ==> g.feedRate == if inverse then 0.0 else gc.feedRate)
      && (Word('S', v) in words ==> g.spindleSpeed == v)
      && (!HasLetter(words, 'S') ==> g.spindleSpeed == gc.spindleSpeed)
  {
    hide ParseFrom, PlanBlock, Execute, Motions, WordText, Concat, WordsOf, LineMode;
    var b := BlockOf(gc, Concat(texts));
    var plan := Planned(gc, store, texts, env);
    PlanParts(gc, store, b, env, plan);
    Executed(gc, store, b, plan, env);
    ModesMean(gc, texts, MODAL_GROUP_G5);
    ModesMean(gc, texts, MODAL_GROUP_G6);
    ValuesMean(gc, texts, 'F', v);
    ValuesMean(gc, texts, 'S', v);
  }

  /** The coordinate system a line selects is the one in force after it, unless it sets coordinates or ends the program. */
  lemma SystemInForce(gc: GcState, store: Store, texts: seq<string>, env: Env)
    requires Accepted(gc, store, texts, env)
    requires LineMode(WordsOf(texts), MODAL_GROUP_M4, gc.modes[MODAL_GROUP_M4]) != COMPLETED
    requires LineMode(WordsOf(texts), MODAL_GROUP_G0, gc.modes[MODAL_GROUP_G0]) != SET_COORDINATE_DATA
    ensures System(gc, store, WordsOf(texts)) == Some(RunLine(gc, store, Concat(texts), env).1.coordSystem)
  {
    hide ParseFrom, PlanBlock, Execute, Motions, WordText, Concat, WordsOf, LineMode;
    var b := BlockOf(gc, Concat(texts));
    var plan := Planned(gc, store, texts, env);
    PlanParts(gc, store, b, env, plan);
    SystemMeans(gc, store, texts, plan.coordinateData);
    ModesMean(gc, texts, MODAL_GROUP_G0);
    ModesMean(gc, texts, MODAL_GROUP_G12);
    ModesMean(gc, texts, MODAL_GROUP_M4);
    Executed(gc, store, b, plan, env);
  }

  /** The line number is the N word without its fraction, or zero. */
  lemma LineNumberMeans(gc: GcState, store: Store, texts: seq<string>, env: Env, v: real)
    requires Accepted(gc, store, texts, env)
    ensures var (words, g) := (WordsOf(texts), RunLine(gc, store, Concat(texts), env).1);
      && (Word('N', v) in words ==> 0.0 <= v && g.lineNumber == v.Floor as real)
      && (!HasLetter(words, 'N') ==> g.lineNumber == 0.0)
  {
    hide ParseFrom, PlanBlock, Execute, Motions, WordText, Concat, WordsOf, LineMode, CommandOf;
    var b, words := BlockOf(gc, Concat(texts)), WordsOf(texts);
    var plan := Planned(gc, store, texts, env);
    Executed(gc, store, b, plan, env);
    LineWords(gc, texts);
    if Word('N', v) in words {
      var i :| 0 <= i < |words| && words[i] == Word('N', v);
      assert Assigns(words[i], WORD_N) && Legal(words[i]);
    }
    forall i | 0 <= i < |words| && Assigns(words[i], WORD_N) ensures words[i].letter == 'N' {
      LettersOwnBits(words[i].letter, 'N');
    }
  }

  // ---- Homes, offsets and records ----

  /** G28 and G30 go to the position of the seventh and the eighth record, by way of the programmed point if axis words
      name one; G28.1 and G30.1 record the present position there. */
  lemma HomesMean(gc: GcState, store: Store, texts: seq<string>, env: Env)
    requires gc.modes[MODAL_GROUP_G0] == 0 && Accepted(gc, store, texts, env)
    requires LineMode(WordsOf(texts), MODAL_GROUP_G0, 0) in {GO_HOME_0, GO_HOME_1}
    ensures var (words, line) := (WordsOf(texts), Concat(texts));
      var select := if LineMode(words, MODAL_GROUP_G0, 0) == GO_HOME_0 then 6 else 7;
      var (g, motions) := (RunLine(gc, store, line, env).1, LineMotions(gc, store, line, env));
      && store[select] == Some(g.position) && System(gc, store, words).Some?
      && if HasAxisWord(words) then
           |motions| == 2 && motions[0].Rapid? && Reaches(gc, System(gc, store, words).value, words, motions[0].target) && motions[1] == Rapid(g.position)
         else motions == [Rapid(g.position)]
  {
    hide ParseFrom, PlanBlock, Execute, WordText, Concat, WordsOf, LineMode, Reaches, Target;
    var b := BlockOf(gc, Concat(texts));
    var plan := Planned(gc, store, texts, env);
    PlanParts(gc, store, b, env, plan);
    SystemMeans(gc, store, texts, plan.coordinateData);
    ModesMean(gc, texts, MODAL_GROUP_G0);
    BlockOwns(gc, texts);
    HomePlanned(gc, store, b, env, plan);
    Executed(gc, store, b, plan, env);
    AxisWordsMean(gc, texts);
    if HasAxisWord(WordsOf(texts)) {
      TargetMeans(gc, plan.coordinateData, texts);
    }
  }

  lemma HomePlanned(gc: GcState, store: Store, b: Block, env: Env, plan: Plan)
    requires PlanBlock(gc, store, b, env) == Ok(plan) && b.modes[MODAL_GROUP_G0] in {GO_HOME_0, GO_HOME_1} && OwnsAxisWords(b)
    ensures plan.target == Target(gc, b, plan.coordinateData) && plan.axisCommand == (if AnyAxis(b) then NonModal else NoAxisCommand)
    ensures store[if b.modes[MODAL_GROUP_G0] == GO_HOME_0 then 6 else 7] == Some(plan.parameterData)
    ensures ModeMotions(gc.position, b, plan, env) == []
  {
    hide Feed, CoordinateData, UsedWords, DynamicAxisError, Target, ArcCheck, SetCoordinateData, OffsetFor;
  }

  lemma HomesRecorded(gc: GcState, store: Store, texts: seq<string>, env: Env)
    requires Accepted(gc, store, texts, env)
    requires LineMode(WordsOf(texts), MODAL_GROUP_M4, gc.modes[MODAL_GROUP_M4]) != COMPLETED
    ensures var (mode, s) := (LineMode(WordsOf(texts), MODAL_GROUP_G0, gc.modes[MODAL_GROUP_G0]), RunLine(gc, store, Concat(texts), env).2);
      && (mode == SET_HOME_0 ==> s == store[6 := Some(gc.position)])
      && (mode == SET_HOME_1 ==> s == store[7 := Some(gc.position)])
      && (mode !in {SET_HOME_0, SET_HOME_1, SET_COORDINATE_DATA} ==> s == store)
  {
    hide ParseFrom, PlanBlock, Execute, Motions, WordText, Concat, WordsOf, LineMode;
    var b := BlockOf(gc, Concat(texts));
    var plan := Planned(gc, store, texts, env);
    ModesMean(gc, texts, MODAL_GROUP_G0);
    ModesMean(gc, texts, MODAL_GROUP_M4);
    Executed(gc, store, b, plan, env);
  }

  /** After G92 the present position reads as the values of the line, in its coordinate system, and axes it does not name
      keep their offsets; G92.1 clears them, and nothing else changes them. */
  lemma OffsetsMean(gc: GcState, store: Store, texts: seq<string>, env: Env)
    requires gc.modes[MODAL_GROUP_G0] == 0 && Accepted(gc, store, texts, env)
    ensures var (words, g) := (WordsOf(texts), RunLine(gc, store, Concat(texts), env).1);
      var mode := LineMode(words, MODAL_GROUP_G0, 0);
      if mode == SET_COORDINATE_OFFSET then
        System(gc, store, words).Some? && forall i :: 0 <= i < AXES ==> OffsetSet(gc, System(gc, store, words).value, words, g, i)
      else g.coordOffset == if mode == RESET_COORDINATE_OFFSET then ZERO else gc.coordOffset
  {
    hide ParseFrom, PlanBlock, Execute, Motions, WordText, Concat, WordsOf, LineMode, OffsetFor, OffsetSet;
    var b := BlockOf(gc, Concat(texts));
    var plan := Planned(gc, store, texts, env);
    PlanParts(gc, store, b, env, plan);
    SystemMeans(gc, store, texts, plan.coordinateData);
    ModesMean(gc, texts, MODAL_GROUP_G0);
    Executed(gc, store, b, plan, env);
    if b.modes[MODAL_GROUP_G0] == SET_COORDINATE_OFFSET {
      OffsetPlanned(gc, store, b, env, plan);
      forall i | 0 <= i < AXES ensures OffsetSet(gc, plan.coordinateData, WordsOf(texts), RunLine(gc, store, Concat(texts), env).1, i) {
        OffsetValue(gc, texts, plan.coordinateData, RunLine(gc, store, Concat(texts), env).1, i);
      }
    }
  }

  ghost predicate OffsetSet(gc: GcState, w: Vec, words: seq<Word>, g: GcState, i: nat)
    requires i < AXES
  {
    && (forall v :: Word(AxisLetter(i), v) in words ==>
          Length(gc, words, v) + w[i] + g.coordOffset[i] + (if i == 2 then gc.toolLengthOffset else 0.0) == gc.position[i])
    && (!HasLetter(words, AxisLetter(i)) ==> g.coordOffset[i] == gc.coordOffset[i])
  }

  lemma OffsetPlanned(gc: GcState, store: Store, b: Block, env: Env, plan: Plan)
    requires PlanBlock(gc, store, b, env) == Ok(plan) && b.modes[MODAL_GROUP_G0] == SET_COORDINATE_OFFSET
    ensures plan.target == OffsetFor(gc, b, plan.coordinateData)
  {
    hide Feed, CoordinateData, UsedWords, DynamicAxisError, Target, ArcCheck, SetCoordinateData, OffsetFor;
  }

  lemma OffsetValue(gc: GcState, texts: seq<string>, w: Vec, g: GcState, i: nat)
    requires Parses(gc, texts) && i < AXES && g.coordOffset == OffsetFor(gc, BlockOf(gc, Concat(texts)), w)
    ensures OffsetSet(gc, w, WordsOf(texts), g, i)
  {
    hide ParseFrom, WordText, Concat, WordsOf, LineMode;
    var b, words := BlockOf(gc, Concat(texts)), WordsOf(texts);
    ModesMean(gc, texts, MODAL_GROUP_G6);
    ValuesMean(gc, texts, AxisLetter(i), 0.0);
    forall v | Word(AxisLetter(i), v) in words
      ensures Length(gc, words, v) + w[i] + g.coordOffset[i] + (if i == 2 then gc.toolLengthOffset else 0.0) == gc.position[i]
    {
      ValuesMean(gc, texts, AxisLetter(i), v);
    }
  }

  /** G43.1 takes the tool length from the Z word, G49 clears it, and nothing else changes it. */
  lemma ToolLengthMeans(gc: GcState, store: Store, texts: seq<string>, env: Env, v: real)
    requires gc.modes[MODAL_GROUP_G0] == 0 && Accepted(gc, store, texts, env)
    ensures var (words, g) := (WordsOf(texts), RunLine(gc, store, Concat(texts), env).1);
      && (forall i :: 0 <= i < |words| && Names(words[i], 'G', 43, 10) && Word('Z', v) in words ==> g.toolLengthOffset == Length(gc, words, v))
      && (forall i :: 0 <= i < |words| && G49(words[i]) ==> g.toolLengthOffset == 0.0)
      && ((forall i :: 0 <= i < |words| ==> !Names(words[i], 'G', 43, 10) && !G49(words[i])) ==> g.toolLengthOffset == gc.toolLengthOffset)
  {
    hide ParseFrom, PlanBlock, Execute, Motions, WordText, Concat, WordsOf, LineMode, IntValue, Mantissa;
    var b, words := BlockOf(gc, Concat(texts)), WordsOf(texts);
    var plan := Planned(gc, store, texts, env);
    Executed(gc, store, b, plan, env);
    AxisMeans(gc, texts);
    AxisWordsMean(gc, texts);
    ModesMean(gc, texts, MODAL_GROUP_G6);
    ModesMean(gc, texts, MODAL_GROUP_G8);
    ValuesMean(gc, texts, 'Z', v);
    BlockOwns(gc, texts);
    ToolPlanned(gc, store, b, env, plan);
    forall i | 0 <= i < |words| && (Names(words[i], 'G', 43, 10) || G49(words[i]))
      ensures b.axisCommand == ToolLengthOffset && b.modes[MODAL_GROUP_G8] == if G49(words[i]) then 0 else TOOL_LENGTH_DYNAMIC
    {
      WordChooses(gc, texts, words[i], MODAL_GROUP_G8);
    }
  }

  lemma ToolPlanned(gc: GcState, store: Store, b: Block, env: Env, plan: Plan)
    requires PlanBlock(gc, store, b, env) == Ok(plan) && OwnsAxisWords(b)
    ensures plan.axisCommand == ToolLengthOffset <==> b.axisCommand == ToolLengthOffset
    ensures b.axisCommand == ToolLengthOffset ==> plan.target == InMm(b)
  {
    hide Feed, CoordinateData, UsedWords, ArcCheck, SetCoordinateData, OffsetFor;
  }

  /** A probing line asks for the probe to its goal, towards or away and with or without an error as its number says, and
      ends where the probe stopped. */
  lemma ProbeMeans(gc: GcState, store: Store, texts: seq<string>, env: Env)
    requires gc.modes[MODAL_GROUP_G0] == 0 && Accepted(gc, store, texts, env) && MovesAxes(WordsOf(texts))
    requires LineMode(WordsOf(texts), MODAL_GROUP_G1, gc.modes[MODAL_GROUP_G1]) in {PROBE_TOWARD, PROBE_TOWARD_NO_ERROR, PROBE_AWAY, PROBE_AWAY_NO_ERROR}
    ensures var (words, line) := (WordsOf(texts), Concat(texts));
      var (g, motions) := (RunLine(gc, store, line, env).1, LineMotions(gc, store, line, env));
      var mode := LineMode(words, MODAL_GROUP_G1, gc.modes[MODAL_GROUP_G1]);
      && g.position == env.probed && |motions| == 1 && motions[0].Probe? && motions[0].feed == g.feedRate
      && System(gc, store, words).Some? && Reaches(gc, System(gc, store, words).value, words, motions[0].target)
      && (motions[0].away <==> mode in {PROBE_AWAY, PROBE_AWAY_NO_ERROR})
      && (motions[0].noError <==> mode in {PROBE_TOWARD_NO_ERROR, PROBE_AWAY_NO_ERROR})
      && (motions[0].inverseTime <==> LineMode(words, MODAL_GROUP_G5, gc.modes[MODAL_GROUP_G5]) == INVERSE_TIME)
  {
    hide ParseFrom, PlanBlock, Execute, WordText, Concat, WordsOf, LineMode, Reaches, MovesAxes, Target, HomeMotions, ArcCentre;
    var b := BlockOf(gc, Concat(texts));
    var plan := Planned(gc, store, texts, env);
    PlanParts(gc, store, b, env, plan);
    SystemMeans(gc, store, texts, plan.coordinateData);
    MotionWords(gc, texts);
    AxisWordsMean(gc, texts);
    TargetMeans(gc, plan.coordinateData, texts);
    BlockOwns(gc, texts);
    MotionPlanned(gc, store, b, env, plan);
    ModesMean(gc, texts, MODAL_GROUP_G1);
    ModesMean(gc, texts, MODAL_GROUP_G5);
    Executed(gc, store, b, plan, env);
  }

  /** G10 rewrites one record, that of number P, or the active one for P0 or no P: with L2 to the values of the line, and
      with L20 so that the present position reads as them. Axes it does not name are kept. */
  lemma RecordsMean(gc: GcState, store: Store, texts: seq<string>, env: Env, p: real)
    requires Accepted(gc, store, texts, env) && LineMode(WordsOf(texts), MODAL_GROUP_G0, gc.modes[MODAL_GROUP_G0]) == SET_COORDINATE_DATA
    requires LineMode(WordsOf(texts), MODAL_GROUP_M4, gc.modes[MODAL_GROUP_M4]) != COMPLETED
    requires Word('P', p) in WordsOf(texts) || (p == 0.0 && !HasLetter(WordsOf(texts), 'P'))
    ensures var (words, active) := (WordsOf(texts), LineMode(WordsOf(texts), MODAL_GROUP_G12, gc.modes[MODAL_GROUP_G12]));
      var (fault, g, s) := RunLine(gc, store, Concat(texts), env);
      var select := if IntValue(p) > 0 then IntValue(p) - 1 else active;
      && select < 8 && store[select].Some? && s[select].Some? && s == store[select := s[select]]
      && (forall i :: 0 <= i < AXES ==> RecordSet(gc, words, store[select].value, s[select].value, i))
      && (select == active ==> g.coordSystem == s[select].value)
      && (select != active ==> System(gc, store, words) == Some(g.coordSystem))
  {
    hide ParseFrom, PlanBlock, Execute, Motions, WordText, Concat, WordsOf, LineMode, RecordSet, NewCoordinateData, IntValue;
    var b, words := BlockOf(gc, Concat(texts)), WordsOf(texts);
    var plan := Planned(gc, store, texts, env);
    PlanParts(gc, store, b, env, plan);
    SystemMeans(gc, store, texts, plan.coordinateData);
    ModesMean(gc, texts, MODAL_GROUP_G0);
    ModesMean(gc, texts, MODAL_GROUP_G12);
    ModesMean(gc, texts, MODAL_GROUP_M4);
    ValuesMean(gc, texts, 'P', p);
    Executed(gc, store, b, plan, env);
    RecordPlanned(gc, store, b, env, plan);
    forall i | 0 <= i < AXES ensures RecordSet(gc, words, store[plan.coordSelect].value, plan.parameterData, i) {
      RecordValue(gc, texts, store[plan.coordSelect].value, plan.parameterData, i);
    }
  }

  /** The new value r of a record that had x, for axis i. */
  ghost predicate RecordSet(gc: GcState, words: seq<Word>, x: Vec, r: Vec, i: nat)
    requires i < AXES
  {
    && (forall v :: Word(AxisLetter(i), v) in words && Word('L', 2.0) in words ==> r[i] == Length(gc, words, v))
    && (forall v :: Word(AxisLetter(i), v) in words && Word('L', 20.0) in words ==>
          Length(gc, words, v) + r[i] + gc.coordOffset[i] + (if i == 2 then gc.toolLengthOffset else 0.0) == gc.position[i])
    && (!HasLetter(words, AxisLetter(i)) ==> r[i] == x[i])
  }

  lemma RecordPlanned(gc: GcState, store: Store, b: Block, env: Env, plan: Plan)
    requires PlanBlock(gc, store, b, env) == Ok(plan) && b.modes[MODAL_GROUP_G0] == SET_COORDINATE_DATA
    ensures plan.coordSelect == if IntValue(b.values[WORD_P]) > 0 then IntValue(b.values[WORD_P]) - 1 else b.modes[MODAL_GROUP_G12]
    ensures plan.coordSelect < 8 && store[plan.coordSelect].Some?
    ensures plan.parameterData == NewCoordinateData(gc, b, store[plan.coordSelect].value)
  {
    hide Feed, CoordinateData, UsedWords, DynamicAxisError, Target, ArcCheck, OffsetFor, NewCoordinateData, IntValue;
  }

  lemma RecordValue(gc: GcState, texts: seq<string>, x: Vec, r: Vec, i: nat)
    requires Parses(gc, texts) && i < AXES && r == NewCoordinateData(gc, BlockOf(gc, Concat(texts)), x)
    ensures RecordSet(gc, WordsOf(texts), x, r, i)
  {
    hide ParseFrom, WordText, Concat, WordsOf, LineMode;
    var b, words := BlockOf(gc, Concat(texts)), WordsOf(texts);
    ModesMean(gc, texts, MODAL_GROUP_G6);
    ValuesMean(gc, texts, AxisLetter(i), 0.0);
    forall v | Word(AxisLetter(i), v) in words ensures HasAxis(b, i) && Mm(b, i) == Length(gc, words, v) {
      ValuesMean(gc, texts, AxisLetter(i), v);
    }
    if Word('L', 2.0) in words {
      LValueMeans(gc, texts, 2);
    }
    if Word('L', 20.0) in words {
      LValueMeans(gc, texts, 20);
    }
  }

  lemma LValueMeans(gc: GcState, texts: seq<string>, n: nat)
    requires Parses(gc, texts) && n < 256 && Word('L', n as real) in WordsOf(texts)
    ensures BlockOf(gc, Concat(texts)).values[WORD_L] == n as real
  {
    hide Concat, ParseFrom, WordText, WordOf, WordsOf, CommandOf, Legal, Selects;
    var words := WordsOf(texts);
    LineWords(gc, texts);
    var i :| 0 <= i < |words| && words[i] == Word('L', n as real);
    assert Assigns(words[i], WORD_L);
    NamesItself('L', n, 0);
  }

  // ---- One line in two units ----

  /** In absolute distance mode a rapid to X1 goes to 1 millimetre after G21 and to 25.4 after G20, in the coordinate
      system and offset in force, from every state in units per minute. */
  lemma UnitsOfALine(gc: GcState, store: Store, env: Env)
    requires gc.modes[MODAL_GROUP_G0] == 0 && gc.modes[MODAL_GROUP_G3] == ABSOLUTE && gc.modes[MODAL_GROUP_G5] == UNITS_PER_MINUTE
    requires gc.modes[MODAL_GROUP_M4] == RUNNING
    ensures RunLine(gc, store, "G21G0X1", env).1.position == gc.position[0 := 1.0 + gc.coordSystem[0] + gc.coordOffset[0]]
    ensures RunLine(gc, store, "G20G0X1", env).1.position == gc.position[0 := 25.4 + gc.coordSystem[0] + gc.coordOffset[0]]
  {
    hide RunLine, ShortWord, ShortWordOf;
    UnitWords();
    RapidWithUnits(gc, store, env, "G21", 21, MILLIMETRES);
    RapidWithUnits(gc, store, env, "G20", 20, INCHES);
  }

  lemma UnitWords()
    ensures ShortWord("G20") && ShortWordOf("G20") == Word('G', 20.0) && ShortWord("G21") && ShortWordOf("G21") == Word('G', 21.0)
    ensures "G21" + "G0" + "X1" == "G21G0X1" && "G20" + "G0" + "X1" == "G20G0X1"
  {
  }

  lemma RapidWithUnits(gc: GcState, store: Store, env: Env, t: string, n: nat, units: nat)
    requires gc.modes[MODAL_GROUP_G0] == 0 && gc.modes[MODAL_GROUP_G3] == ABSOLUTE && gc.modes[MODAL_GROUP_G5] == UNITS_PER_MINUTE
    requires gc.modes[MODAL_GROUP_M4] == RUNNING && (n, units) in {(20, INCHES), (21, MILLIMETRES)}
    requires ShortWord(t) && ShortWordOf(t) == Word('G', n as real)
    ensures RunLine(gc, store, t + "G0" + "X1", env).1.position
         == gc.position[0 := (if units == INCHES then 25.4 else 1.0) + gc.coordSystem[0] + gc.coordOffset[0]]
  {
    hide ParseFrom, PlanBlock, Execute, WordText, Concat, WordsOf, LineMode, ShortWordOf, ShortWord;
    var line := t + "G0" + "X1";
    ThreeWords(t, n, StartBlock(gc));
    RapidPlanned(gc, store, BlockOf(gc, line), env, units);
    var plan := PlanBlock(gc, store, BlockOf(gc, line), env).value;
    Executed(gc, store, BlockOf(gc, line), plan, env);
  }

  /** What the three words parse to. */
  lemma ThreeWords(t: string, n: nat, b: Block)
    requires b.axisCommand == NoAxisCommand && b.commandWords == {} && b.valueWords == {} && n in {20, 21}
    requires ShortWord(t) && ShortWordOf(t) == Word('G', n as real)
    ensures ParseFrom(t + "G0" + "X1", 0, b) == Parsed(Block(b.modes[MODAL_GROUP_G6 := if n == 20 then INCHES else MILLIMETRES][MODAL_GROUP_G1 := SEEK],
      b.values[WORD_X := 1.0], MotionMode, {MODAL_GROUP_G6, MODAL_GROUP_G1}, {WORD_X}))
  {
    hide ParseFrom, Step, StepWord;
    ParsesThree(t, "G0", "X1", b);
    TakesCommand(b, t, n);
    FirstStep(b, ShortWordOf(t));
    var c := Step(Parsed(b), ShortWordOf(t)).block;
    TakesCommand(c, "G0", 0);
    var d := Step(Parsed(c), ShortWordOf("G0")).block;
    TakesValue(d, "X1", WORD_X);
    assert d.commandWords == {MODAL_GROUP_G6, MODAL_GROUP_G1} && d.valueWords + {WORD_X} == {WORD_X};
  }

  lemma RapidPlanned(gc: GcState, store: Store, c: Block, env: Env, units: nat)
    requires c.modes == gc.modes[MODAL_GROUP_G6 := units][MODAL_GROUP_G1 := SEEK] && c.axisCommand == MotionMode && c.valueWords == {WORD_X}
    requires gc.modes[MODAL_GROUP_G0] == 0 && gc.modes[MODAL_GROUP_G3] == ABSOLUTE && gc.modes[MODAL_GROUP_G5] == UNITS_PER_MINUTE
    requires c.commandWords == {MODAL_GROUP_G6, MODAL_GROUP_G1} && c.values[WORD_X] == 1.0
    ensures PlanBlock(gc, store, c, env).Ok?
    ensures var plan := PlanBlock(gc, store, c, env).value;
      plan.axisCommand == MotionMode && plan.target == gc.position[0 := (if units == INCHES then 25.4 else 1.0) + gc.coordSystem[0] + gc.coordOffset[0]]
  {
    var goal := (if units == INCHES then 25.4 else 1.0) + gc.coordSystem[0] + gc.coordOffset[0];
    assert Target(gc, c, gc.coordSystem) == gc.position[0 := goal];
  }
}
