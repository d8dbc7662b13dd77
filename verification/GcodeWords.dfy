/** Importing the words of a g-code line: one command per modal group, one value per letter, and the order
    of the words immaterial (RS274/NGC version 3, sections 3.3.4, 3.3.5 and 3.4). */
module GcodeWords {
  import opened Numbers
  import opened Reals

  // ---- Modal groups and value words, numbered as the parser's bit flags ----

  const MODAL_GROUP_G0 := 0
  const MODAL_GROUP_G1 := 1
  const MODAL_GROUP_G2 := 2
  const MODAL_GROUP_G3 := 3
  const MODAL_GROUP_G4 := 4
  const MODAL_GROUP_G5 := 5
  const MODAL_GROUP_G6 := 6
  const MODAL_GROUP_G7 := 7
  const MODAL_GROUP_G8 := 8
  const MODAL_GROUP_G12 := 9
  const MODAL_GROUP_G13 := 10
  const MODAL_GROUP_M4 := 11
  const MODAL_GROUP_M7 := 12
  const MODAL_GROUP_M8 := 13
  const GROUPS: nat := 14

  const WORD_F := 0
  const WORD_I := 1
  const WORD_J := 2
  const WORD_K := 3
  const WORD_L := 4
  const WORD_N := 5
  const WORD_P := 6
  const WORD_R := 7
  const WORD_S := 8
  const WORD_T := 9
  const WORD_X := 10
  const WORD_Y := 11
  const WORD_Z := 12
  const WORDS: nat := 13

  datatype AxisCommand = NoAxisCommand | NonModal | MotionMode | ToolLengthOffset

  datatype Error =
    | ExpectedCommandLetter
    | BadNumberFormat
    | UnsupportedCommand
    | CommandValueNotInteger
    | AxisCommandConflict
    | ModalGroupViolation
    | WordRepeated
    | NegativeValue

  datatype Word = Word(letter: char, value: real)

  /** The mode each modal group selects; a group without a mode keeps its entry. */
  type Modes = m: seq<nat> | |m| == GROUPS witness seq(GROUPS, _ => 0)

  type Values = v: seq<real> | |v| == WORDS witness seq(WORDS, _ => 0.0)

  /** The parser block, with the words it has taken so far. */
  datatype Block = Block(modes: Modes, values: Values, axisCommand: AxisCommand, commandWords: set<nat>, valueWords: set<nat>)

  datatype Parse = Rejected(error: Error) | Parsed(block: Block)

  // ---- One word ----

  function Trunc(x: real): int {
    if x >= 0.0 then x.Floor else -((-x).Floor)
  }

  /** The parser keeps the integer part in eight bits and a hundred times the rest in sixteen. */
  function IntValue(value: real): nat {
    Trunc(value) % 256
  }

  function Mantissa(value: real): nat {
    Round(100.0 * (value - IntValue(value) as real)) % 65536
  }

  /** What a command word asks for: the axis command it claims, its modal group, the mode it selects if
      any, and why it is refused on its own if it is. */
  datatype Command = Command(axis: AxisCommand, group: nat, mode: Option<nat>, error: Option<Error>)

  function Refuse(axis: AxisCommand, error: Error): Command {
    Command(axis, 0, None, Some(error))
  }

  /** A command that may have no fraction. */
  function Whole(axis: AxisCommand, group: nat, mode: Option<nat>, mantissa: nat): Command {
    Command(axis, group, mode, if mantissa > 0 then Some(CommandValueNotInteger) else None)
  }

  function GCommand(code: nat, mantissa: nat): Command {
    if code in {10, 28, 30, 92} then
      var axis := if mantissa == 0 then NonModal else NoAxisCommand;
      if code == 10 then Whole(axis, MODAL_GROUP_G0, Some(2), mantissa)
      else if mantissa !in {0, 10} then Refuse(axis, UnsupportedCommand)
      else
        var first := if code == 28 then 3 else if code == 30 then 5 else 8;
        Command(axis, MODAL_GROUP_G0, Some(if mantissa == 0 then first else first + 1), None)
    else if code == 4 then Whole(NoAxisCommand, MODAL_GROUP_G0, Some(1), mantissa)
    else if code == 53 then Whole(NoAxisCommand, MODAL_GROUP_G0, Some(7), mantissa)
    else if code < 4 then Whole(MotionMode, MODAL_GROUP_G1, Some(code), mantissa)
    else if code == 38 then
      if mantissa in {20, 30, 40, 50} then Command(MotionMode, MODAL_GROUP_G1, Some(2 + mantissa / 10), None)
      else Refuse(MotionMode, UnsupportedCommand)
    else if code == 80 then Whole(NoAxisCommand, MODAL_GROUP_G1, Some(8), mantissa)
    else if 17 <= code <= 19 then Whole(NoAxisCommand, MODAL_GROUP_G2, Some(code - 17), mantissa)
    else if code in {90, 91} then
      if mantissa == 0 then Command(NoAxisCommand, MODAL_GROUP_G3, Some(code - 90), None)
      else if mantissa != 10 || code == 90 then Refuse(NoAxisCommand, UnsupportedCommand)
      else Command(NoAxisCommand, MODAL_GROUP_G4, None, None)
    else if code in {93, 94} then Whole(NoAxisCommand, MODAL_GROUP_G5, Some(94 - code), mantissa)
    else if code in {20, 21} then Whole(NoAxisCommand, MODAL_GROUP_G6, Some(21 - code), mantissa)
    else if code == 40 then Whole(NoAxisCommand, MODAL_GROUP_G7, None, mantissa)
    else if code == 49 then Command(ToolLengthOffset, MODAL_GROUP_G8, Some(0), None)
    else if code == 43 then
      if mantissa == 10 then Command(ToolLengthOffset, MODAL_GROUP_G8, Some(1), None)
      else Refuse(ToolLengthOffset, UnsupportedCommand)
    else if 54 <= code <= 59 then Whole(NoAxisCommand, MODAL_GROUP_G12, Some(code - 54), mantissa)
    else if code == 61 then
      if mantissa != 0 then Refuse(NoAxisCommand, UnsupportedCommand) else Command(NoAxisCommand, MODAL_GROUP_G13, None, None)
    else Refuse(NoAxisCommand, UnsupportedCommand)
  }

  function MCommand(code: nat, mantissa: nat): Command {
    if mantissa > 0 then Refuse(NoAxisCommand, CommandValueNotInteger)
    else if code == 0 then Command(NoAxisCommand, MODAL_GROUP_M4, Some(1), None)
    else if code == 1 then Command(NoAxisCommand, MODAL_GROUP_M4, None, None)
    else if code in {2, 30} then Command(NoAxisCommand, MODAL_GROUP_M4, Some(2), None)
    else if code in {3, 4, 5} then Command(NoAxisCommand, MODAL_GROUP_M7, Some(if code == 5 then 0 else code - 2), None)
    else if code in {8, 9} then Command(NoAxisCommand, MODAL_GROUP_M8, Some(if code == 8 then 2 else 0), None)
    else Refuse(NoAxisCommand, UnsupportedCommand)
  }

  predicate IsCommand(w: Word) {
    w.letter == 'G' || w.letter == 'M'
  }

  function CommandOf(w: Word): (c: Command)
    ensures c.error.None? ==> c.group < GROUPS
  {
    if w.letter == 'G' then GCommand(IntValue(w.value), Mantissa(w.value)) else MCommand(IntValue(w.value), Mantissa(w.value))
  }

  /** The bit a value letter owns. */
  function WordBit(letter: char): (b: Option<nat>)
    ensures b.Some? ==> b.value < WORDS
  {
    match letter
    case 'F' => Some(WORD_F) case 'I' => Some(WORD_I) case 'J' => Some(WORD_J) case 'K' => Some(WORD_K)
    case 'L' => Some(WORD_L) case 'N' => Some(WORD_N) case 'P' => Some(WORD_P) case 'R' => Some(WORD_R)
    case 'S' => Some(WORD_S) case 'T' => Some(WORD_T) case 'X' => Some(WORD_X) case 'Y' => Some(WORD_Y)
    case 'Z' => Some(WORD_Z)
    case _ => None
  }

  /** L is kept as an integer, N without its fraction, and T not at all. */
  function StoredValue(w: Word): real {
    match w.letter
    case 'L' => IntValue(w.value) as real
    case 'N' => Trunc(w.value) as real
    case 'T' => 0.0
    case _ => w.value
  }

  predicate NonNegative(bit: nat) {
    bit in {WORD_F, WORD_N, WORD_P, WORD_T, WORD_S}
  }

  function StepCommand(b: Block, c: Command): Parse {
    if c.axis != NoAxisCommand && b.axisCommand != NoAxisCommand then Rejected(AxisCommandConflict)
    else if c.error.Some? then Rejected(c.error.value)
    else if c.group in b.commandWords || c.group >= GROUPS then Rejected(ModalGroupViolation)
    else
      Parsed(Block(if c.mode.Some? then b.modes[c.group := c.mode.value] else b.modes, b.values,
                   if c.axis != NoAxisCommand then c.axis else b.axisCommand, b.commandWords + {c.group}, b.valueWords))
  }

  function StepValue(b: Block, bit: nat, value: real, stored: real): Parse
    requires bit < WORDS
  {
    if bit in b.valueWords then Rejected(WordRepeated)
    else if NonNegative(bit) && value < 0.0 then Rejected(NegativeValue)
    else Parsed(b.(values := b.values[bit := stored], valueWords := b.valueWords + {bit}))
  }

  function StepWord(b: Block, w: Word): Parse {
    if IsCommand(w) then StepCommand(b, CommandOf(w))
    else if WordBit(w.letter).None? then Rejected(UnsupportedCommand)
    else StepValue(b, WordBit(w.letter).value, w.value, StoredValue(w))
  }

  function Step(p: Parse, w: Word): Parse {
    if p.Rejected? then p else StepWord(p.block, w)
  }

  function Import(p: Parse, words: seq<Word>): Parse {
    if words == [] then p else Step(Import(p, words[..|words| - 1]), words[|words| - 1])
  }

  // ---- Order does not matter ----

  /** The same block, or both refused, perhaps for another reason. */
  predicate Same(p: Parse, q: Parse) {
    p == q || (p.Rejected? && q.Rejected?)
  }

  lemma CommandsCommute(b: Block, c: Command, d: Command)
    ensures Same(AndCommand(StepCommand(b, c), d), AndCommand(StepCommand(b, d), c))
  {
    if StepCommand(b, c).Parsed? && StepCommand(b, d).Parsed? && c.group != d.group {
      assert b.commandWords + {c.group} + {d.group} == b.commandWords + {d.group} + {c.group};
      if c.mode.Some? && d.mode.Some? {
        assert b.modes[c.group := c.mode.value][d.group := d.mode.value] == b.modes[d.group := d.mode.value][c.group := c.mode.value];
      }
    }
  }

  function AndCommand(p: Parse, c: Command): Parse {
    if p.Rejected? then p else StepCommand(p.block, c)
  }

  lemma ValuesCommute(b: Block, i: nat, v: real, s: real, j: nat, u: real, t: real)
    requires i < WORDS && j < WORDS
    ensures Same(AndValue(StepValue(b, i, v, s), j, u, t), AndValue(StepValue(b, j, u, t), i, v, s))
  {
    if i != j {
      assert b.valueWords + {i} + {j} == b.valueWords + {j} + {i};
      assert b.values[i := s][j := t] == b.values[j := t][i := s];
    }
  }

  function AndValue(p: Parse, bit: nat, value: real, stored: real): Parse
    requires bit < WORDS
  {
    if p.Rejected? then p else StepValue(p.block, bit, value, stored)
  }

  lemma WordsCommute(p: Parse, v: Word, w: Word)
    ensures Same(Step(Step(p, v), w), Step(Step(p, w), v))
  {
    hide CommandOf, WordBit, StoredValue;
    if p.Parsed? {
      if IsCommand(v) && IsCommand(w) {
        CommandsCommute(p.block, CommandOf(v), CommandOf(w));
      } else if !IsCommand(v) && !IsCommand(w) && WordBit(v.letter).Some? && WordBit(w.letter).Some? {
        ValuesCommute(p.block, WordBit(v.letter).value, v.value, StoredValue(v), WordBit(w.letter).value, w.value, StoredValue(w));
      }
    }
  }

  lemma SameStep(p: Parse, q: Parse, w: Word)
    requires Same(p, q)
    ensures Same(Step(p, w), Step(q, w))
  {
    hide StepWord;
  }

  function Without(words: seq<Word>, i: nat): seq<Word>
    requires i < |words|
  {
    words[..i] + words[i + 1..]
  }

  /** A word may be moved to the end. */
  lemma {:induction false} MoveToEnd(p: Parse, words: seq<Word>, i: nat)
    requires i < |words|
    ensures Same(Import(p, words), Import(p, Without(words, i) + [words[i]]))
    decreases |words|
  {
    hide Step, Import;
    var n := |words| - 1;
    var w := words[i];
    ImportLast(p, words);
    if i == n {
      assert Without(words, i) + [w] == words;
    } else {
      var last := words[n];
      MoveToEnd(p, words[..n], i);
      var front := Without(words[..n], i);
      assert Without(words, i) == front + [last];
      ImportMore(p, front, w);
      ImportMore(p, front, last);
      ImportMore(p, front + [last], w);
      SameStep(Import(p, words[..n]), Import(p, front + [w]), last);
      WordsCommute(Import(p, front), w, last);
    }
  }

  lemma ImportLast(p: Parse, words: seq<Word>)
    requires words != []
    ensures Import(p, words) == Step(Import(p, words[..|words| - 1]), words[|words| - 1])
  {
  }

  lemma ImportMore(p: Parse, words: seq<Word>, w: Word)
    ensures Import(p, words + [w]) == Step(Import(p, words), w)
  {
    assert (words + [w])[..|words|] == words;
  }

  lemma WithoutOne(words: seq<Word>, i: nat)
    requires i < |words|
    ensures multiset(words) == multiset(Without(words, i)) + multiset{words[i]}
  {
    assert words == words[..i] + [words[i]] + words[i + 1..];
  }

  /** Any permutation of a line's words is accepted or refused with it, and gives the same block. */
  lemma {:induction false} OrderImmaterial(p: Parse, words: seq<Word>, others: seq<Word>)
    requires multiset(words) == multiset(others)
    ensures Same(Import(p, words), Import(p, others))
    decreases |words|
  {
    hide Step, Import;
    if words == [] {
      assert |others| == |multiset(others)| == |multiset(words)| == 0;
    } else {
      var n := |words| - 1;
      var w := words[n];
      assert words == words[..n] + [w];
      assert w in multiset(others);
      var i :| 0 <= i < |others| && others[i] == w;
      WithoutOne(others, i);
      WithoutOne(words, n);
      assert Without(words, n) == words[..n];
      assert multiset(words[..n]) == multiset(words) - multiset{w};
      assert multiset(Without(others, i)) == multiset(others) - multiset{w};
      OrderImmaterial(p, words[..n], Without(others, i));
      MoveToEnd(p, others, i);
      ImportLast(p, words);
      ImportMore(p, Without(others, i), w);
      SameStep(Import(p, words[..n]), Import(p, Without(others, i)), w);
    }
  }

  // ---- Exactly which lines are accepted ----

  /** The word is acceptable on its own. */
  predicate Legal(w: Word) {
    if IsCommand(w) then CommandOf(w).error.None?
    else WordBit(w.letter).Some? && !(NonNegative(WordBit(w.letter).value) && w.value < 0.0)
  }

  /** The two words may stand on one line: commands from different modal groups, at most one of them an
      axis command; values for different letters. */
  predicate Compatible(v: Word, w: Word) {
    if IsCommand(v) && IsCommand(w) then
      CommandOf(v).group != CommandOf(w).group
      && (CommandOf(v).axis == NoAxisCommand || CommandOf(w).axis == NoAxisCommand)
    else v.letter != w.letter
  }

  ghost predicate Consistent(words: seq<Word>) {
    && (forall i :: 0 <= i < |words| ==> Legal(words[i]))
    && (forall i, j :: 0 <= i < j < |words| ==> Compatible(words[i], words[j]))
  }

  /** What the block remembers of the words taken. */
  ghost predicate Remembers(b: Block, words: seq<Word>) {
    && (forall g :: g in b.commandWords <==> exists i :: 0 <= i < |words| && IsCommand(words[i]) && CommandOf(words[i]).group == g)
    && (forall k :: k in b.valueWords <==> exists i :: 0 <= i < |words| && !IsCommand(words[i]) && WordBit(words[i].letter) == Some(k))
    && (b.axisCommand != NoAxisCommand <==> exists i :: 0 <= i < |words| && IsCommand(words[i]) && CommandOf(words[i]).axis != NoAxisCommand)
  }

  predicate Empty(b: Block) {
    b.commandWords == {} && b.valueWords == {} && b.axisCommand == NoAxisCommand
  }

  lemma LettersOwnBits(c: char, d: char)
    requires WordBit(c).Some? && WordBit(c) == WordBit(d)
    ensures c == d
  {
  }

  /** One more word is taken exactly when it is legal and compatible with every word before it. */
  lemma TakesWord(b: Block, words: seq<Word>, w: Word)
    requires Remembers(b, words)
    ensures StepWord(b, w).Parsed? <==> Legal(w) && forall i :: 0 <= i < |words| ==> Compatible(words[i], w)
  {
    hide CommandOf, WordBit, StoredValue;
    if IsCommand(w) {
      var c := CommandOf(w);
      assert (c.group in b.commandWords) <==> exists i :: 0 <= i < |words| && IsCommand(words[i]) && CommandOf(words[i]).group == c.group;
    } else if WordBit(w.letter).Some? {
      var k := WordBit(w.letter).value;
      assert k in b.valueWords <==> exists i :: 0 <= i < |words| && !IsCommand(words[i]) && WordBit(words[i].letter) == Some(k);
      forall i | 0 <= i < |words| && !IsCommand(words[i]) && WordBit(words[i].letter) == Some(k) ensures !Compatible(words[i], w) {
        LettersOwnBits(words[i].letter, w.letter);
      }
    }
  }

  lemma RemembersMore(b: Block, words: seq<Word>, w: Word)
    requires Remembers(b, words) && StepWord(b, w).Parsed?
    ensures Remembers(StepWord(b, w).block, words + [w])
  {
    hide CommandOf, WordBit, StoredValue;
    var more, n := words + [w], |words|;
    var r := StepWord(b, w).block;
    assert forall i :: 0 <= i < n ==> more[i] == words[i];
    assert more[n] == w;
    forall g ensures g in r.commandWords <==> exists i :: 0 <= i < |more| && IsCommand(more[i]) && CommandOf(more[i]).group == g {
      if g in b.commandWords {
        var i :| 0 <= i < n && IsCommand(words[i]) && CommandOf(words[i]).group == g;
        assert IsCommand(more[i]) && CommandOf(more[i]).group == g;
      } else if g in r.commandWords {
        assert IsCommand(more[n]) && CommandOf(more[n]).group == g;
      }
    }
    forall k ensures k in r.valueWords <==> exists i :: 0 <= i < |more| && !IsCommand(more[i]) && WordBit(more[i].letter) == Some(k) {
      if k in b.valueWords {
        var i :| 0 <= i < n && !IsCommand(words[i]) && WordBit(words[i].letter) == Some(k);
        assert !IsCommand(more[i]) && WordBit(more[i].letter) == Some(k);
      } else if k in r.valueWords {
        assert !IsCommand(more[n]) && WordBit(more[n].letter) == Some(k);
      }
    }
    if b.axisCommand != NoAxisCommand {
      var i :| 0 <= i < n && IsCommand(words[i]) && CommandOf(words[i]).axis != NoAxisCommand;
      assert IsCommand(more[i]) && CommandOf(more[i]).axis != NoAxisCommand;
    } else if r.axisCommand != NoAxisCommand {
      assert IsCommand(more[n]) && CommandOf(more[n]).axis != NoAxisCommand;
    }
  }

  /** A line's words are accepted exactly when each is legal and every two are compatible: at most one
      command per modal group, at most one axis command, at most one value per letter. */
  lemma {:induction false} AcceptedIffConsistent(b: Block, words: seq<Word>)
    requires Empty(b)
    ensures Import(Parsed(b), words).Parsed? <==> Consistent(words)
    ensures Import(Parsed(b), words).Parsed? ==> Remembers(Import(Parsed(b), words).block, words)
  {
    if words != [] {
      hide StepWord, Legal, Compatible, Remembers, Import;
      ImportLast(Parsed(b), words);
      var n := |words| - 1;
      var before := words[..n];
      AcceptedIffConsistent(b, before);
      assert words == before + [words[n]];
      if Import(Parsed(b), before).Parsed? {
        var p := Import(Parsed(b), before).block;
        assert forall i :: 0 <= i < n ==> words[i] == before[i];
        TakesWord(p, before, words[n]);
        if StepWord(p, words[n]).Parsed? {
          RemembersMore(p, before, words[n]);
        }
      } else if Consistent(words) {
        ConsistentPrefix(words, n);
      }
    } else {
      assert Remembers(b, []);
    }
  }

  lemma ConsistentPrefix(words: seq<Word>, n: nat)
    requires n <= |words| && Consistent(words)
    ensures Consistent(words[..n])
  {
    hide Legal, Compatible;
  }

  // ---- What an accepted line leaves in the block ----

  predicate Selects(w: Word, g: nat) {
    IsCommand(w) && CommandOf(w).group == g && CommandOf(w).mode.Some?
  }

  predicate Assigns(w: Word, k: nat) {
    !IsCommand(w) && WordBit(w.letter) == Some(k)
  }

  predicate Claims(w: Word) {
    IsCommand(w) && CommandOf(w).axis != NoAxisCommand
  }

  /** Every word's mode, value and axis command is in the block, and what no word names is as it was. */
  ghost predicate Reflects(was: Block, b: Block, words: seq<Word>) {
    && (forall i, g :: 0 <= i < |words| && 0 <= g < GROUPS && Selects(words[i], g) ==> b.modes[g] == CommandOf(words[i]).mode.value)
    && (forall g :: 0 <= g < GROUPS && (forall i :: 0 <= i < |words| ==> !Selects(words[i], g)) ==> b.modes[g] == was.modes[g])
    && (forall i, k :: 0 <= i < |words| && 0 <= k < WORDS && Assigns(words[i], k) ==> b.values[k] == StoredValue(words[i]))
    && (forall k :: 0 <= k < WORDS && (forall i :: 0 <= i < |words| ==> !Assigns(words[i], k)) ==> b.values[k] == was.values[k])
    && (forall i :: 0 <= i < |words| && Claims(words[i]) ==> b.axisCommand == CommandOf(words[i]).axis)
    && ((forall i :: 0 <= i < |words| ==> !Claims(words[i])) ==> b.axisCommand == was.axisCommand)
  }

  lemma ReflectsMore(was: Block, b: Block, words: seq<Word>, w: Word)
    requires Reflects(was, b, words) && Remembers(b, words) && StepWord(b, w).Parsed?
    ensures Reflects(was, StepWord(b, w).block, words + [w])
  {
    hide CommandOf, WordBit, StoredValue;
    var more, n := words + [w], |words|;
    var r := StepWord(b, w).block;
    assert forall i :: 0 <= i < n ==> more[i] == words[i];
    assert more[n] == w;
    forall i, g | 0 <= i <= n && 0 <= g < GROUPS && Selects(more[i], g) ensures r.modes[g] == CommandOf(more[i]).mode.value {
      if i < n {
        assert g in b.commandWords;
      }
    }
    forall g | 0 <= g < GROUPS && (forall i :: 0 <= i <= n ==> !Selects(more[i], g)) ensures r.modes[g] == was.modes[g] {
      assert !Selects(more[n], g);
      assert forall i :: 0 <= i < n ==> !Selects(words[i], g) by {
        assert forall i :: 0 <= i < n ==> words[i] == more[i];
      }
    }
    forall i, k | 0 <= i <= n && 0 <= k < WORDS && Assigns(more[i], k) ensures r.values[k] == StoredValue(more[i]) {
      if i < n {
        assert k in b.valueWords;
      }
    }
    forall k | 0 <= k < WORDS && (forall i :: 0 <= i <= n ==> !Assigns(more[i], k)) ensures r.values[k] == was.values[k] {
      assert !Assigns(more[n], k);
      assert forall i :: 0 <= i < n ==> !Assigns(words[i], k) by {
        assert forall i :: 0 <= i < n ==> words[i] == more[i];
      }
    }
    forall i | 0 <= i <= n && Claims(more[i]) ensures r.axisCommand == CommandOf(more[i]).axis {
      if i < n {
        assert Claims(words[i]) && b.axisCommand != NoAxisCommand;
      }
    }
    if forall i :: 0 <= i <= n ==> !Claims(more[i]) {
      assert !Claims(more[n]);
      assert forall i :: 0 <= i < n ==> !Claims(words[i]) by {
        assert forall i :: 0 <= i < n ==> words[i] == more[i];
      }
    }
  }

  /** The block of an accepted line, read off its words. */
  lemma {:induction false} BlockReflectsWords(b: Block, words: seq<Word>)
    requires Empty(b) && Import(Parsed(b), words).Parsed?
    ensures Reflects(b, Import(Parsed(b), words).block, words)
  {
    hide StepWord, Remembers, Import, CommandOf, WordBit, StoredValue;
    if words == [] {
      ImportNone(Parsed(b));
    } else {
      var n := |words| - 1;
      ImportLast(Parsed(b), words);
      BlockReflectsWords(b, words[..n]);
      AcceptedIffConsistent(b, words[..n]);
      ReflectsMore(b, Import(Parsed(b), words[..n]).block, words[..n], words[n]);
      assert words[..n] + [words[n]] == words;
    }
  }

  lemma ImportNone(p: Parse)
    ensures Import(p, []) == p
  {
  }
}
