/** Reading a g-code line character by character, and what that makes of the words it consists of. */
module GcodeLine {
  import opened Numbers
  import opened GcodeWords

  predicate Letter(c: char) {
    'A' <= c <= 'Z'
  }

  lemma ReadAdvances(line: string, i: nat)
    requires i <= |line| && ReadAt(line, i).Some?
    ensures i <= ReadAt(line, i).value.1 <= |line|
  {
    ScanBounds(line, i + SignAt(line, i), START);
  }

  /** Letter and number, letter and number, to the end of the line. */
  function ParseFrom(line: string, i: nat, b: Block): Parse
    requires i <= |line|
    decreases |line| - i
  {
    if i == |line| then Parsed(b)
    else if !Letter(line[i]) then Rejected(ExpectedCommandLetter)
    else if ReadAt(line, i + 1).None? then Rejected(BadNumberFormat)
    else
      var (value, next) := ReadAt(line, i + 1).value;
      ReadAdvances(line, i + 1);
      var p := StepWord(b, Word(line[i], value));
      if p.Rejected? then p else ParseFrom(line, next, p.block)
  }

  method ImportLine(line: string, start: Block) returns (p: Parse)
    ensures p == ParseFrom(line, 0, start)
  {
    var block := start;
    var counter: nat := 0;
    while counter < |line|
      invariant counter <= |line| && ParseFrom(line, 0, start) == ParseFrom(line, counter, block)
    {
      var letter := line[counter];
      if letter < 'A' || letter > 'Z' {
        return Rejected(ExpectedCommandLetter);
      }
      var ok, value, next := ReadFloat(line, counter + 1);
      if !ok {
        return Rejected(BadNumberFormat);
      }
      ReadAdvances(line, counter + 1);
      var step := StepWord(block, Word(letter, value));
      if step.Rejected? {
        return step;
      }
      block, counter := step.block, next;
    }
    p := Parsed(block);
  }

  // ---- Words as text ----

  predicate NumberText(t: string) {
    var digits := t[SignAt(t, 0)..];
    AcceptsAll(START, digits) && Fold(START, digits).ndigit > 0
  }

  predicate WordText(t: string) {
    |t| > 0 && Letter(t[0]) && NumberText(t[1..])
  }

  function NumberOf(t: string): real
    requires NumberText(t)
  {
    var st := Fold(START, t[SignAt(t, 0)..]);
    var r := Scale(st.intval as real, st.exp);
    if t != [] && t[0] == '-' then -r else r
  }

  function WordOf(t: string): Word
    requires WordText(t)
  {
    Word(t[0], NumberOf(t[1..]))
  }

  predicate AllWords(texts: seq<string>) {
    forall i :: 0 <= i < |texts| ==> WordText(texts[i])
  }

  function WordsOf(texts: seq<string>): seq<Word>
    requires AllWords(texts)
  {
    if texts == [] then [] else [WordOf(texts[0])] + WordsOf(texts[1..])
  }

  function Concat(texts: seq<string>): string {
    if texts == [] then [] else texts[0] + Concat(texts[1..])
  }

  /** A word's number, read where the word stands in a line, up to the next letter or the end. */
  lemma ReadWord(line: string, i: nat, t: string)
    requires WordText(t) && i + |t| <= |line| && line[i..i + |t|] == t
    requires i + |t| == |line| || Letter(line[i + |t|])
    ensures ReadAt(line, i + 1) == Some((NumberOf(t[1..]), i + |t|))
  {
    hide AcceptsAll, Fold, ScanFrom, Scale;
    var u := t[1..];
    var k := SignAt(u, 0);
    var digits := u[k..];
    FoldEmpty(START);
    SomeDigits(digits);
    assert u == line[i + 1..i + |t|];
    assert line[i + 1] == u[0];
    assert SignAt(line, i + 1) == k;
    assert digits == line[i + 1 + k..i + |t|];
    assert digits[..0] == [];
    ScanText(line, i + 1 + k, 0, digits, START);
  }

  lemma SomeDigits(s: string)
    requires AcceptsAll(START, s) && Fold(START, s).ndigit > 0
    ensures s != []
  {
  }

  lemma {:induction false} ImportCons(p: Parse, w: Word, words: seq<Word>)
    ensures Import(p, [w] + words) == Import(Step(p, w), words)
    decreases |words|
  {
    hide Step;
    if words == [] {
      assert [w] + words == [w] && [w][..0] == [];
    } else {
      var n := |words| - 1;
      ImportCons(p, w, words[..n]);
      assert ([w] + words)[..n + 1] == [w] + words[..n];
    }
  }

  lemma {:induction false} RejectedStays(p: Parse, words: seq<Word>)
    requires p.Rejected?
    ensures Import(p, words) == p
    decreases |words|
  {
    if words != [] {
      RejectedStays(p, words[..|words| - 1]);
    }
  }

  /** A line made of words parses as those words, whatever their texts. */
  lemma {:induction false} ParseIsImport(line: string, i: nat, texts: seq<string>, b: Block)
    requires AllWords(texts) && i <= |line| && line[i..] == Concat(texts)
    ensures ParseFrom(line, i, b) == Import(Parsed(b), WordsOf(texts))
    decreases |texts|
  {
    hide StepWord, WordText, NumberText, NumberOf, ReadAt, Import;
    if texts == [] {
      ImportNone(Parsed(b));
    } else {
      var t, rest := texts[0], texts[1..];
      TextsFollow(line, i, texts);
      ReadWord(line, i, t);
      var p := StepWord(b, WordOf(t));
      ImportCons(Parsed(b), WordOf(t), WordsOf(rest));
      if p.Rejected? {
        RejectedStays(p, WordsOf(rest));
      } else {
        ParseIsImport(line, i + |t|, rest, p.block);
      }
    }
  }

  /** The first of several word texts, and what comes after it. */
  lemma TextsFollow(line: string, i: nat, texts: seq<string>)
    requires texts != [] && AllWords(texts) && i <= |line| && line[i..] == Concat(texts)
    ensures i + |texts[0]| <= |line| && line[i..i + |texts[0]|] == texts[0]
    ensures line[i + |texts[0]|..] == Concat(texts[1..])
    ensures i + |texts[0]| == |line| || Letter(line[i + |texts[0]|])
    ensures WordText(texts[0]) && AllWords(texts[1..]) && i < |line| && line[i] == texts[0][0] && Letter(line[i])
  {
    hide NumberText;
    var t, rest := texts[0], texts[1..];
    var n := |t|;
    var tail := line[i..];
    assert tail == t + Concat(rest);
    assert tail[..n] == t && tail[n..] == Concat(rest);
    assert line[i..i + n] == tail[..n] && line[i + n..] == tail[n..];
    assert line[i] == tail[0];
    if rest != [] {
      assert Concat(rest) == rest[0] + Concat(rest[1..]);
      assert line[i + n] == line[i + n..][0] == rest[0][0];
      assert WordText(texts[1]);
    } else {
      assert |tail| == n;
    }
  }

  /** What the reader consumed is text it accepts. */
  lemma {:induction false} ScanIsText(line: string, a: nat, i: nat)
    requires a <= i <= |line| && AcceptsAll(START, line[a..i])
    ensures var (st, j) := ScanFrom(line, i, Fold(START, line[a..i]));
      i <= j <= |line| && AcceptsAll(START, line[a..j]) && Fold(START, line[a..j]) == st
    decreases |line| - i
  {
    hide AcceptsAll, Fold;
    var st := Fold(START, line[a..i]);
    if i < |line| && Accepts(st, line[i]) {
      Snoc(START, line[a..i], line[i]);
      assert line[a..i] + [line[i]] == line[a..i + 1];
      ScanIsText(line, a, i + 1);
    }
  }

  lemma ReadIsText(line: string, i: nat)
    requires i <= |line| && ReadAt(line, i).Some?
    ensures var j := ReadAt(line, i).value.1;
      i < j <= |line| && NumberText(line[i..j])
  {
    hide AcceptsAll, Fold, ScanFrom, Scale;
    var k := SignAt(line, i);
    assert line[i + k..i + k] == [];
    FoldEmpty(START);
    ScanIsText(line, i + k, i + k);
    var j := ReadAt(line, i).value.1;
    assert line[i..j][k..] == line[i + k..j];
    SomeDigits(line[i + k..j]);
    assert k == SignAt(line[i..j], 0) by {
      assert line[i..j][0] == line[i];
    }
  }

  /** Every accepted line is made of words. */
  lemma {:induction false} AcceptedIsWords(line: string, i: nat, b: Block) returns (texts: seq<string>)
    requires i <= |line| && ParseFrom(line, i, b).Parsed?
    ensures AllWords(texts) && Concat(texts) == line[i..]
    decreases |line| - i
  {
    hide StepWord, NumberText, ReadAt;
    if i == |line| {
      texts := [];
    } else {
      var (value, next) := ReadAt(line, i + 1).value;
      ReadIsText(line, i + 1);
      var t := line[i..next];
      assert t[1..] == line[i + 1..next] && t[0] == line[i];
      var rest := AcceptedIsWords(line, next, StepWord(b, Word(line[i], value)).block);
      texts := [t] + rest;
      assert texts[1..] == rest && texts[0] == t;
      assert line[i..] == t + line[next..];
    }
  }

  // ---- Lines with the same words ----

  lemma {:induction false} WordsOfAt(texts: seq<string>)
    requires AllWords(texts)
    ensures |WordsOf(texts)| == |texts| && forall i :: 0 <= i < |texts| ==> WordsOf(texts)[i] == WordOf(texts[i])
  {
    hide WordText, WordOf;
    if texts != [] {
      WordsOfAt(texts[1..]);
      forall i | 0 <= i < |texts| ensures WordsOf(texts)[i] == WordOf(texts[i]) {
        if i > 0 {
          assert texts[1..][i - 1] == texts[i];
        }
      }
    }
  }

  function TextsWithout(texts: seq<string>, i: nat): seq<string>
    requires i < |texts|
  {
    texts[..i] + texts[i + 1..]
  }

  lemma WordsOfWithout(texts: seq<string>, i: nat)
    requires AllWords(texts) && i < |texts|
    ensures AllWords(TextsWithout(texts, i)) && i < |WordsOf(texts)|
    ensures WordsOf(TextsWithout(texts, i)) == Without(WordsOf(texts), i)
    ensures multiset(WordsOf(texts)) == multiset(WordsOf(TextsWithout(texts, i))) + multiset{WordOf(texts[i])}
  {
    hide WordText, WordOf, WordsOf;
    WordsOfAt(texts);
    WordsOfAt(TextsWithout(texts, i));
    assert WordsOf(TextsWithout(texts, i)) == Without(WordsOf(texts), i);
    WithoutOne(WordsOf(texts), i);
  }

  lemma TextsOneLess(texts: seq<string>, i: nat)
    requires i < |texts|
    ensures multiset(TextsWithout(texts, i)) == multiset(texts) - multiset{texts[i]}
  {
    assert texts == texts[..i] + [texts[i]] + texts[i + 1..];
  }

  lemma {:induction false} SameWords(texts: seq<string>, others: seq<string>)
    requires AllWords(texts) && AllWords(others) && multiset(texts) == multiset(others)
    ensures multiset(WordsOf(texts)) == multiset(WordsOf(others))
    decreases |texts|
  {
    hide WordText, WordOf, WordsOf;
    if texts == [] {
      assert |others| == |multiset(others)| == |multiset(texts)| == 0;
    } else {
      assert texts[0] in multiset(others);
      var i :| 0 <= i < |others| && others[i] == texts[0];
      TextsOneLess(texts, 0);
      TextsOneLess(others, i);
      WordsOfWithout(texts, 0);
      WordsOfWithout(others, i);
      SameWords(TextsWithout(texts, 0), TextsWithout(others, i));
    }
  }

  /** Permuting the words of a line changes neither whether it is accepted nor the block it gives. */
  lemma LineOrderImmaterial(texts: seq<string>, others: seq<string>, b: Block)
    requires AllWords(texts) && AllWords(others) && multiset(texts) == multiset(others)
    ensures Same(ParseFrom(Concat(texts), 0, b), ParseFrom(Concat(others), 0, b))
  {
    hide WordText, WordOf, Concat, Import, ParseFrom;
    var line, other := Concat(texts), Concat(others);
    assert line[0..] == line && other[0..] == other;
    ParseIsImport(line, 0, texts, b);
    ParseIsImport(other, 0, others, b);
    SameWords(texts, others);
    OrderImmaterial(Parsed(b), WordsOf(texts), WordsOf(others));
  }

  /** A line is accepted exactly when it is made of words, each legal and every two compatible. */
  lemma AcceptedIffWords(line: string, b: Block)
    requires Empty(b)
    ensures ParseFrom(line, 0, b).Parsed? <==> exists texts :: AllWords(texts) && Concat(texts) == line && Consistent(WordsOf(texts))
  {
    hide WordText, WordOf, Concat, Import, ParseFrom, Consistent;
    assert line[0..] == line;
    if ParseFrom(line, 0, b).Parsed? {
      var texts := AcceptedIsWords(line, 0, b);
      ParseIsImport(line, 0, texts, b);
      AcceptedIffConsistent(b, WordsOf(texts));
    } else {
      forall texts | AllWords(texts) && Concat(texts) == line ensures !Consistent(WordsOf(texts)) {
        ParseIsImport(line, 0, texts, b);
        AcceptedIffConsistent(b, WordsOf(texts));
      }
    }
  }
}
